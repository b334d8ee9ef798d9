// publish_request.py, lines 98-134: which terminal document the publishing job
// hands to the branch, and with which receipt.
module Publisher {
  import opened Options
  import opened Bytes
  import opened JsonValues
  import opened Libraries
  import opened Requests
  import opened Results
  import Receipts
  import Abi

  const NO_RESULT := "Workflow ended without a verified result"
  const REJECTED := "Publisher rejected the proof artifact or original verification failed"

  datatype File = File(symlink: bool, content: bytes)

  // What the workflow left behind, and whether the verifier could be fetched.
  datatype Workspace = Workspace(result: Option<File>, receipt: Option<File>, prepared: bool)

  // The original verifier: does it accept this receipt for this image?
  type Verifier = (bytes, string) -> bool

  predicate IsVerified(result: Json) {
    Get(result, "status") == Some(Str("verified"))
  }

  // ---- The decision ----

  function ReadReceipt(files: Workspace): Option<bytes> {
    var file :- files.receipt;
    if file.symlink || |file.content| > MAX_PUBLIC_RECEIPT then None else Some(file.content)
  }

  // The document and receipt the workflow proposes; None where reading them raises.
  function Proposal(lib: Library, files: Workspace): Option<(Json, Option<bytes>)> {
    var file :- files.result;
    if file.symlink || |file.content| > MAX_RESULT then None
    else
      var document :- StrictJson(lib, file.content, MAX_RESULT);
      if !document.Obj? then None
      else if IsVerified(document) then
        var receipt :- ReadReceipt(files);
        Some((document, Some(receipt)))
      else Some((document, None))
  }

  predicate Confirmed(lib: Library, pins: Pins, c: Context, request: Option<Request>, files: Workspace,
                      accepts: Verifier, document: Json, receipt: Option<bytes>)
  {
    && ValidateTerminal(lib, pins, document, c, request, receipt)
    && (receipt.Some? ==>
          && files.prepared && request.Some?
          && |request.value.body.imageId| >= 2
          && accepts(receipt.value, request.value.body.imageId[2..]))
  }

  function Decide(lib: Library, pins: Pins, c: Context, request: Option<Request>, files: Workspace, accepts: Verifier)
    : (Json, Option<bytes>)
  {
    if files.result == None then (Terminal(c, request, Null, Null, Str(NO_RESULT)), None)
    else
      var proposal := Proposal(lib, files);
      if proposal.Some? && Confirmed(lib, pins, c, request, files, accepts, proposal.value.0, proposal.value.1)
      then proposal.value
      else (Terminal(c, request, Null, Null, Str(REJECTED)), None)
  }

  lemma ProposalReceipt(lib: Library, files: Workspace)
    ensures Proposal(lib, files).Some? ==>
              var (document, receipt) := Proposal(lib, files).value; receipt.Some? <==> IsVerified(document)
  {
  }

  // A decision is a failure report of this job, or a confirmed proposal.
  lemma DecisionCases(lib: Library, pins: Pins, c: Context, request: Option<Request>, files: Workspace,
                      accepts: Verifier) returns (error: string)
    ensures var (result, receipt) := Decide(lib, pins, c, request, files, accepts);
            || ((result, receipt) == (Terminal(c, request, Null, Null, Str(error)), None)
                && 0 < |error| <= MAX_ERROR)
            || (Confirmed(lib, pins, c, request, files, accepts, result, receipt)
                && (receipt.Some? <==> IsVerified(result)))
  {
    ProposalReceipt(lib, files);
    assert |NO_RESULT| == 40 && |REJECTED| == 69;
    if files.result == None {
      error := NO_RESULT;
    } else {
      error := REJECTED;
    }
  }

  lemma FailuresAreNotVerified(c: Context, request: Option<Request>, error: Json)
    ensures !IsVerified(Terminal(c, request, Null, Null, error))
  {
    OutcomeLookup(Null, Null, error, InputOf(request));
  }

  lemma DecisionValidates(lib: Library, pins: Pins, c: Context, request: Option<Request>, files: Workspace,
                          accepts: Verifier)
    ensures var (result, receipt) := Decide(lib, pins, c, request, files, accepts);
            && ValidateTerminal(lib, pins, result, c, request, receipt)
            && (receipt.Some? <==> IsVerified(result))
  {
    var error := DecisionCases(lib, pins, c, request, files, accepts);
    var (result, receipt) := Decide(lib, pins, c, request, files, accepts);
    if !Confirmed(lib, pins, c, request, files, accepts, result, receipt) {
      FailureReportsValidate(lib, pins, c, request, Null, error, None);
      FailuresAreNotVerified(c, request, Str(error));
    } else if result == Terminal(c, request, Null, Null, Str(error)) {
      FailuresAreNotVerified(c, request, Str(error));
    }
  }

  // The workflow left this document in a regular file of bounded size, and beside a
  // verified one a receipt of bounded size.
  ghost predicate Left(lib: Library, files: Workspace, document: Json, receipt: Option<bytes>) {
    && files.result.Some? && !files.result.value.symlink && 0 < |files.result.value.content| <= 131072
    && lib.strict(files.result.value.content) && lib.loads(files.result.value.content) == Some(document)
    && document.Obj?
    && if Get(document, "status") == Some(Str("verified"))
       then files.receipt.Some? && !files.receipt.value.symlink && |files.receipt.value.content| <= 1048576
            && receipt == Some(files.receipt.value.content)
       else receipt == None
  }

  lemma LeftExactly(lib: Library, files: Workspace, document: Json, receipt: Option<bytes>)
    ensures Left(lib, files, document, receipt) <==> Proposal(lib, files) == Some((document, receipt))
  {
  }

  // It may be published: it is valid, and the original verifier is there and accepts the
  // receipt, if there is one.
  ghost predicate Publishable(lib: Library, pins: Pins, c: Context, request: Option<Request>, files: Workspace,
                              accepts: Verifier, document: Json, receipt: Option<bytes>)
  {
    && Left(lib, files, document, receipt) && ValidateTerminal(lib, pins, document, c, request, receipt)
    && (receipt.Some? ==>
          && files.prepared && request.Some? && |request.value.body.imageId| >= 2
          && accepts(receipt.value, request.value.body.imageId[2..]))
  }

  // Main publishes such a document and its receipt, and else a report of its own.
  lemma DecidesExactly(lib: Library, pins: Pins, c: Context, request: Option<Request>, files: Workspace,
                       accepts: Verifier)
    ensures files.result == None ==>
              Decide(lib, pins, c, request, files, accepts)
              == (Terminal(c, request, Null, Null, Str("Workflow ended without a verified result")), None)
    ensures forall document, receipt | Publishable(lib, pins, c, request, files, accepts, document, receipt) ::
              Decide(lib, pins, c, request, files, accepts) == (document, receipt)
    ensures files.result.Some?
            && (forall document, receipt :: !Publishable(lib, pins, c, request, files, accepts, document, receipt)) ==>
              Decide(lib, pins, c, request, files, accepts)
              == (Terminal(c, request, Null, Null,
                           Str("Publisher rejected the proof artifact or original verification failed")), None)
  {
    var proposal := Proposal(lib, files);
    if proposal.Some? {
      var (document, receipt) := proposal.value;
      LeftExactly(lib, files, document, receipt);
      assert Publishable(lib, pins, c, request, files, accepts, document, receipt) <==>
             Confirmed(lib, pins, c, request, files, accepts, document, receipt);
    }
    forall document, receipt | Publishable(lib, pins, c, request, files, accepts, document, receipt)
      ensures proposal == Some((document, receipt))
    {
      LeftExactly(lib, files, document, receipt);
    }
  }

  // The job's main up to the call of publish: the document and receipt that pass
  // its last validation, which cannot fail.
  method PublisherMain(lib: Library, pins: Pins, profiles: map<string, Profile>, c: Context, raw: bytes,
                       files: Workspace, accepts: Verifier) returns (result: Json, receipt: Option<bytes>)
    ensures var request := ValidateRequest(lib, profiles, raw);
            && (result, receipt) == Decide(lib, pins, c, request, files, accepts)
            && ValidateTerminal(lib, pins, result, c, request, receipt)
  {
    var request := ValidateRequest(lib, profiles, raw);
    receipt := None;
    result := Terminal(c, request, Null, Null, Str(NO_RESULT));
    if files.result.Some? {
      var raised := true;
      var proposal := Proposal(lib, files);
      if proposal.Some? {
        result, receipt := proposal.value.0, proposal.value.1;
        raised := !Confirmed(lib, pins, c, request, files, accepts, result, receipt);
      }
      if raised {
        receipt := None;
        result := Terminal(c, request, Null, Null, Str(REJECTED));
      }
    }
    DecisionValidates(lib, pins, c, request, files, accepts);
  }

  // ---- What may be published ----

  // A genuine publication: the reader accepted the receipt, its journal is the
  // request's, the original verifier accepted it for the request's image, and
  // certificate.bin decodes to the receipt's selector and seal and to its journal.
  ghost predicate Genuine(request: Option<Request>, accepts: Verifier, result: Json, receipt: Option<bytes>) {
    && request.Some? && receipt.Some?
    && |request.value.body.imageId| >= 2
    && accepts(receipt.value, request.value.body.imageId[2..])
    && var parsed, certificate := Receipts.Groth16(receipt.value), CertificateFile(result);
       && parsed.Some? && certificate.Some?
       && parsed.value.journal == request.value.journal
       && |parsed.value.parameters| == 32
       && Abi.AbiDecode(certificate.value)
          == Some((parsed.value.parameters[..4] + parsed.value.seal, request.value.journal))
  }

  lemma ConfirmedIsGenuine(lib: Library, pins: Pins, c: Context, request: Option<Request>, files: Workspace,
                           accepts: Verifier, result: Json, receipt: Option<bytes>)
    requires Confirmed(lib, pins, c, request, files, accepts, result, receipt) && IsVerified(result)
    ensures Genuine(request, accepts, result, receipt)
  {
    ValidProofCertificate(lib, pins, result.fields["proof"], receipt.value, request.value, c);
  }

  // Nothing is published as verified unless it is genuine.
  lemma VerifiedIsGenuine(lib: Library, pins: Pins, c: Context, request: Option<Request>, files: Workspace,
                          accepts: Verifier)
    ensures var (result, receipt) := Decide(lib, pins, c, request, files, accepts);
            if IsVerified(result) then Genuine(request, accepts, result, receipt) else receipt == None
  {
    var error := DecisionCases(lib, pins, c, request, files, accepts);
    var (result, receipt) := Decide(lib, pins, c, request, files, accepts);
    if (result, receipt) == (Terminal(c, request, Null, Null, Str(error)), None) {
      FailuresAreNotVerified(c, request, Str(error));
    } else if IsVerified(result) {
      ConfirmedIsGenuine(lib, pins, c, request, files, accepts, result, receipt);
    }
  }
}
