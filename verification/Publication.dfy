// The publishing jobs end to end: main's decision (publish_request.py, lines
// 98-134) feeding the branch protocol (lines 53-95).
module Publication {
  import opened Options
  import opened Bytes
  import opened JsonValues
  import opened Libraries
  import opened Requests
  import opened Results
  import opened Publisher
  import opened Attempts
  import opened PublishProtocol
  import opened Statements
  import Abi

  // Where a job comes from: its workflow context, the request file, the pinned profiles,
  // and what the workflow left behind.
  datatype Origin = Origin(context: Context, raw: bytes, profiles: map<string, Profile>, files: Workspace)

  // The request, if it is valid.
  function RequestOf(lib: Library, o: Origin): Option<Request> {
    ValidateRequest(lib, o.profiles, o.raw)
  }

  function JobOf(lib: Library, pins: Pins, accepts: Verifier, o: Origin): Job {
    var (result, receipt) := Decide(lib, pins, o.context, RequestOf(lib, o), o.files, accepts);
    Job(o.context, result, receipt, |lib.dumps(result)|)
  }

  function Jobs(lib: Library, pins: Pins, accepts: Verifier, origins: seq<Origin>): seq<Job> {
    seq(|origins|, i requires 0 <= i < |origins| => JobOf(lib, pins, accepts, origins[i]))
  }

  lemma ContextLookup(c: Context)
    ensures var fields := ContextFields(c);
            && {"requestDigest", "requestCommit", "baseCommit", "runId", "runAttempt"} <= fields.Keys
            && fields["requestDigest"] == Str(c.requestDigest)
            && fields["requestCommit"] == Str(c.requestCommit)
            && fields["baseCommit"] == Str(c.baseCommit)
            && fields["runId"] == Str(c.runId)
            && fields["runAttempt"] == Str(c.runAttempt)
  {
  }

  lemma ValidatedStates(lib: Library, pins: Pins, result: Json, c: Context, request: Option<Request>,
                        receipt: Option<bytes>, key: string)
    requires ValidateTerminal(lib, pins, result, c, request, receipt) && key in ContextFields(c)
    ensures Get(result, key) == Some(ContextFields(c)[key])
  {
    ContextKeys(c);
    assert key in RESULT_KEYS;
  }

  // main's last validation gives publish() a document that states its own context.
  lemma MainJobIsOk(lib: Library, pins: Pins, accepts: Verifier, o: Origin)
    requires AttemptText(o.context.runAttempt)
    ensures JobOk(JobOf(lib, pins, accepts, o))
  {
    var (result, receipt) := Decide(lib, pins, o.context, RequestOf(lib, o), o.files, accepts);
    DecisionValidates(lib, pins, o.context, RequestOf(lib, o), o.files, accepts);
    ContextLookup(o.context);
    ValidatedStates(lib, pins, result, o.context, RequestOf(lib, o), receipt, "requestDigest");
    ValidatedStates(lib, pins, result, o.context, RequestOf(lib, o), receipt, "requestCommit");
    ValidatedStates(lib, pins, result, o.context, RequestOf(lib, o), receipt, "baseCommit");
    ValidatedStates(lib, pins, result, o.context, RequestOf(lib, o), receipt, "runId");
    ValidatedStates(lib, pins, result, o.context, RequestOf(lib, o), receipt, "runAttempt");
  }

  // ---- What publish() still refuses ----

  // The result was validated, and yet publish() refuses to write it, exactly if its
  // text grows too long when it is serialised again.
  lemma RefusedExactly(lib: Library, pins: Pins, accepts: Verifier, o: Origin)
    ensures var job := JobOf(lib, pins, accepts, o);
            TreeOf(job) == None <==> |lib.dumps(job.result)| > 131072
  {
    VerifiedIsGenuine(lib, pins, o.context, RequestOf(lib, o), o.files, accepts);
    DecisionValidates(lib, pins, o.context, RequestOf(lib, o), o.files, accepts);
  }

  // Never, if the workflow wrote the text that publish() will write, as request_job.py
  // does.
  lemma OwnTextIsWritten(lib: Library, pins: Pins, accepts: Verifier, o: Origin)
    requires Proposal(lib, o.files).Some? && o.files.result.value.content == lib.dumps(Proposal(lib, o.files).value.0)
    requires JobOf(lib, pins, accepts, o).result == Proposal(lib, o.files).value.0
    ensures TreeOf(JobOf(lib, pins, accepts, o)).Some?
  {
    RefusedExactly(lib, pins, accepts, o);
  }

  // A report without a receipt that passes the last validation is what main decides on.
  lemma ReportDecided(lib: Library, pins: Pins, accepts: Verifier, c: Context, request: Option<Request>,
                      files: Workspace, document: Json)
    requires ValidateTerminal(lib, pins, document, c, request, None) && document.Obj? && !IsVerified(document)
    requires files.result.Some? && !files.result.value.symlink
    requires StrictJson(lib, files.result.value.content, MAX_RESULT) == Some(document)
    ensures Decide(lib, pins, c, request, files, accepts) == (document, None)
  {
    assert Proposal(lib, files) == Some((document, None));
    assert Confirmed(lib, pins, c, request, files, accepts, document, None);
  }

  // A failure report with a long list in its resource summary. Written without spaces
  // it takes two bytes an item and is accepted; publish() gives each item a line of
  // its own, eight bytes at that depth, and refuses.
  lemma LongReportRefused(lib: Library, pins: Pins, accepts: Verifier, o: Origin, error: string, zeros: seq<Json>,
                          document: Json)
    requires document == Terminal(o.context, RequestOf(lib, o), Null, Obj(map["samples" := Arr(zeros)]), Str(error))
    requires 0 < |error| <= MAX_ERROR && |zeros| > MAX_RESULT / 8
    requires o.files.result.Some? && !o.files.result.value.symlink
    requires StrictJson(lib, o.files.result.value.content, MAX_RESULT) == Some(document)
    requires |lib.dumps(document)| >= 8 * |zeros|
    ensures ValidateTerminal(lib, pins, document, o.context, RequestOf(lib, o), None)
    ensures JobOf(lib, pins, accepts, o).result == document && TreeOf(JobOf(lib, pins, accepts, o)) == None
  {
    var resources := Obj(map["samples" := Arr(zeros)]);
    FailureReportsValidate(lib, pins, o.context, RequestOf(lib, o), resources, error, None);
    TerminalFields(o.context, RequestOf(lib, o), Null, resources, Str(error));
    assert |"failed"| != |"verified"|;
    ReportDecided(lib, pins, accepts, o.context, RequestOf(lib, o), o.files, document);
    RefusedExactly(lib, pins, accepts, o);
  }

  // ---- What is published ----

  // A commit that publishes a genuine verification of the request: the receipt and
  // certificate beside its document are the genuine ones, the certificate decodes to the
  // claim of this request, and all that the document states is true.
  ghost predicate GenuineCommit(lib: Library, pins: Pins, o: Origin, accepts: Verifier, c: Commit) {
    match (ContentAt(c.tree, "receipt.bin"), ContentAt(c.tree, "certificate.bin"))
    case (Some(Raw(receipt)), Some(Raw(certificate))) =>
      && Genuine(RequestOf(lib, o), accepts, Published(c), Some(receipt))
      && CertificateFile(Published(c)) == Some(certificate) && |c.tree| == 3
      && (var decoded := Abi.AbiDecode(certificate);
          decoded.Some? && Claims(lib, RequestOf(lib, o).value, decoded.value.1))
      && Truthful(lib, pins, o.context, RequestOf(lib, o).value, accepts, Published(c), receipt,
                  RequestOf(lib, o).value.body.imageId[2..])
    case _ => false
  }

  lemma TreeHolds(job: Job, tree: seq<Entry>)
    requires TreeOf(job) == Some(tree) && job.receipt.Some?
    ensures ContentAt(tree, RECEIPT_FILE) == Some(Raw(job.receipt.value))
    ensures CertificateFile(job.result).Some?
    ensures ContentAt(tree, CERTIFICATE_FILE) == Some(Raw(CertificateFile(job.result).value))
  {
    assert tree[0].path == RESULT_FILE && tree[1].path == RECEIPT_FILE && tree[2].path == CERTIFICATE_FILE;
    assert |RESULT_FILE| == 11 && |CERTIFICATE_FILE| == 15 && RECEIPT_FILE[2] != RESULT_FILE[2];
    assert ContentAt(tree, RECEIPT_FILE) == ContentAt(tree[1..], RECEIPT_FILE);
    assert ContentAt(tree, CERTIFICATE_FILE) == ContentAt(tree[1..], CERTIFICATE_FILE);
    assert ContentAt(tree[1..], CERTIFICATE_FILE) == ContentAt(tree[1..][1..], CERTIFICATE_FILE);
  }

  // A verified document on the branch is the tip, and one of the jobs wrote it.
  lemma VerifiedHasAuthor(jobs: seq<Job>, run: seq<State>, k: nat, c: Commit)
    requires forall j | j in jobs :: JobOk(j)
    requires IsRun(jobs, run) && k < |run|
    requires c in run[k].moves && IsVerified(Published(c))
    ensures run[k].tip == Some(c)
    ensures exists i: nat | i < |jobs| :: WrittenBy(jobs[i], c)
  {
    RunInvariant(jobs, run, k);
    var m :| 0 <= m < |run[k].moves| && run[k].moves[m] == c;
    assert m == |run[k].moves| - 1;
    var job :| job in jobs && WrittenBy(job, c);
    var i: nat :| i < |jobs| && jobs[i] == job;
  }

  lemma AuthorIsGenuine(lib: Library, pins: Pins, accepts: Verifier, o: Origin, c: Commit)
    requires WrittenBy(JobOf(lib, pins, accepts, o), c) && IsVerified(Published(c))
    ensures GenuineCommit(lib, pins, o, accepts, c)
  {
    VerifiedIsGenuine(lib, pins, o.context, RequestOf(lib, o), o.files, accepts);
    TreeHolds(JobOf(lib, pins, accepts, o), c.tree);
    JournalClaims(lib, o.profiles, o.raw);
    VerifiedIsTruthful(lib, pins, o.profiles, o.raw, o.context, o.files, accepts);
  }

  // In every run of any number of publishing jobs, a verified document on the branch is
  // the tip, and it is genuine for one of the jobs. The job's request is valid; the receipt
  // published beside the document was accepted by the reader, with the request's journal,
  // and by the original verifier, for the request's image; the certificate beside it
  // decodes to the receipt's selector and seal and to that journal, whose words are the
  // domain, the request's goal, its profile and its outcome; and what the document states
  // is true of that journal, that receipt, that image, the request and the job's context.
  lemma VerifiedBranchIsGenuine(lib: Library, pins: Pins, accepts: Verifier, origins: seq<Origin>, run: seq<State>,
                                k: nat, c: Commit)
    requires forall o | o in origins :: AttemptText(o.context.runAttempt)
    requires IsRun(Jobs(lib, pins, accepts, origins), run) && k < |run|
    requires c in run[k].moves && IsVerified(Published(c))
    ensures run[k].tip == Some(c)
    ensures exists o | o in origins :: GenuineCommit(lib, pins, o, accepts, c)
  {
    var jobs := Jobs(lib, pins, accepts, origins);
    forall j | j in jobs ensures JobOk(j) {
      var i :| 0 <= i < |jobs| && jobs[i] == j;
      MainJobIsOk(lib, pins, accepts, origins[i]);
    }
    VerifiedHasAuthor(jobs, run, k, c);
    var i: nat :| i < |jobs| && WrittenBy(jobs[i], c);
    AuthorIsGenuine(lib, pins, accepts, origins[i], c);
  }
}
