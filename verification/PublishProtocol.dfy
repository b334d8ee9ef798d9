// publish_request.py, lines 53-95: many publishing jobs and one branch. Each job
// reads the branch, reads the published document at that commit, builds a commit
// on that parent and asks the server to create or fast-forward the branch.
module PublishProtocol {
  import opened Options
  import opened Bytes
  import opened JsonValues
  import opened Results
  import opened Publisher
  import opened Attempts

  // ---- Commits ----

  // Object ids stand for what they identify: a commit is its parent, its tree, and
  // a stamp for its message, author and time.
  datatype Content = Document(json: Json) | Raw(data: bytes)

  datatype Entry = Entry(path: string, content: Content)

  datatype Commit = Commit(parent: Option<Commit>, tree: seq<Entry>, stamp: int)

  const RESULT_FILE := "result.json"
  const RECEIPT_FILE := "receipt.bin"
  const CERTIFICATE_FILE := "certificate.bin"

  // A commit and its ancestors, oldest first.
  function Chain(c: Commit): (chain: seq<Commit>)
    ensures chain != [] && chain[|chain| - 1] == c
  {
    (if c.parent == None then [] else Chain(c.parent.value)) + [c]
  }

  function ContentAt(tree: seq<Entry>, path: string): Option<Content> {
    if tree == [] then None
    else if tree[0].path == path then Some(tree[0].content)
    else ContentAt(tree[1..], path)
  }

  function Published(c: Commit): Json {
    match ContentAt(c.tree, RESULT_FILE)
    case Some(Document(json)) => json
    case _ => Null
  }

  // ---- Attempts ----

  // The attempt a published document states: text, or a number that prints as one.
  function AttemptOf(document: Json): Option<nat> {
    match Get(document, "runAttempt")
    case Some(Str(s)) => if AttemptText(s) then Some(DecimalValue(s)) else None
    case Some(Int(n)) => if 1 <= n <= 999999 then Some(n) else None
    case _ => None
  }

  // ---- One job ----

  // payload is the length of the document once serialised.
  datatype Job = Job(context: Context, result: Json, receipt: Option<bytes>, payload: nat)

  datatype Judgement = Keep | Refuse | Write

  predicate States(document: Json, key: string, value: string) {
    Get(document, key) == Some(Str(value))
  }

  predicate SameRequest(document: Json, c: Context) {
    && States(document, "requestDigest", c.requestDigest)
    && States(document, "requestCommit", c.requestCommit)
    && States(document, "baseCommit", c.baseCommit)
  }

  // What a job does about the document it found on the branch.
  function Judge(job: Job, prior: Json): Judgement {
    if !SameRequest(prior, job.context) then Refuse
    else if !States(prior, "format", FORMAT) then Refuse
    else if IsVerified(prior) then Keep
    else if !States(prior, "status", "failed") then Refuse
    else if !States(prior, "runId", job.context.runId) then Refuse
    else
      match AttemptOf(prior)
      case None => Refuse
      case Some(n) => if n >= AttemptNumber(job.context.runAttempt) then Keep else Write
  }

  function TreeOf(job: Job): Option<seq<Entry>> {
    if job.payload > MAX_RESULT then None
    else
      var document := Entry(RESULT_FILE, Document(job.result));
      if job.receipt == None then Some([document])
      else
        var certificate :- CertificateFile(job.result);
        Some([document, Entry(RECEIPT_FILE, Raw(job.receipt.value)), Entry(CERTIFICATE_FILE, Raw(certificate))])
  }

  // The same attempt as text.
  ghost predicate StatesAttempt(document: Json, s: string) {
    AttemptText(s)
    && (Get(document, "runAttempt") == Some(Str(s))
        || exists n: nat :: s == Decimal(n) && Get(document, "runAttempt") == Some(Int(n)))
  }

  lemma AttemptAsNumber(document: Json, n: int)
    requires Get(document, "runAttempt") == Some(Int(n))
    ensures AttemptOf(document) == Some(n) <==> n >= 0 && AttemptText(Decimal(n))
    ensures n >= 0 && AttemptText(Decimal(n)) ==> AttemptNumber(Decimal(n)) == n
  {
    if n >= 0 { DecimalAttempt(n); }
  }

  lemma StatedAttempt(document: Json, s: string)
    ensures StatesAttempt(document, s) ==> AttemptOf(document) == Some(AttemptNumber(s))
    ensures AttemptOf(document).Some? ==> StatesAttempt(document, Decimal(AttemptOf(document).value))
  {
    var attempt := Get(document, "runAttempt");
    if attempt.Some? && attempt.value.Str? {
      AttemptsAreDecimals(attempt.value.s, AttemptNumber(attempt.value.s));
    } else if attempt.Some? && attempt.value.Int? {
      AttemptAsNumber(document, attempt.value.n);
    }
  }

  // The document is about this request.
  predicate OfRequest(document: Json, c: Context) {
    && Get(document, "requestDigest") == Some(Str(c.requestDigest))
    && Get(document, "requestCommit") == Some(Str(c.requestCommit))
    && Get(document, "baseCommit") == Some(Str(c.baseCommit))
    && Get(document, "format") == Some(Str("oncm-public-proof-result-v1"))
  }

  // It reports a failed attempt of this run.
  ghost predicate FailedAttempt(document: Json, c: Context, s: string) {
    && OfRequest(document, c)
    && Get(document, "status") == Some(Str("failed")) && Get(document, "runId") == Some(Str(c.runId))
    && StatesAttempt(document, s)
  }

  // What a job writes over: a failed earlier attempt of its own run.
  ghost predicate Replaced(c: Context, prior: Json) {
    exists s :: FailedAttempt(prior, c, s) && EarlierText(s, c.runAttempt)
  }

  // What it keeps: a verified result, or an attempt of its run that is not earlier.
  ghost predicate Kept(c: Context, prior: Json) {
    || (OfRequest(prior, c) && Get(prior, "status") == Some(Str("verified")))
    || exists s :: FailedAttempt(prior, c, s) && !EarlierText(s, c.runAttempt)
  }

  lemma JudgesExactly(job: Job, prior: Json)
    requires AttemptText(job.context.runAttempt)
    ensures Judge(job, prior) == Write <==> Replaced(job.context, prior)
    ensures Judge(job, prior) == Keep <==> Kept(job.context, prior)
  {
    var c := job.context;
    forall s ensures FailedAttempt(prior, c, s) ==>
                       && AttemptOf(prior) == Some(AttemptNumber(s))
                       && (AttemptNumber(s) < AttemptNumber(c.runAttempt) <==> EarlierText(s, c.runAttempt))
    {
      StatedAttempt(prior, s);
      if FailedAttempt(prior, c, s) { AttemptOrder(s, c.runAttempt); }
    }
    StatedAttempt(prior, "");
    assert |"failed"| != |"verified"|;
    if AttemptOf(prior).Some? {
      var s := Decimal(AttemptOf(prior).value);
      assert OfRequest(prior, c) && States(prior, "status", "failed") && States(prior, "runId", c.runId)
          ==> FailedAttempt(prior, c, s);
    }
  }

  // What main's last validation guarantees of a job.
  predicate JobOk(job: Job) {
    && SameRequest(job.result, job.context)
    && States(job.result, "runId", job.context.runId)
    && States(job.result, "runAttempt", job.context.runAttempt)
    && AttemptText(job.context.runAttempt)
  }

  // ---- The server ----

  // Creates the branch if it is absent, or fast-forwards it; None is a refusal.
  function Accept(tip: Option<Commit>, commit: Commit): Option<Commit> {
    match (commit.parent, tip)
    case (None, None) => Some(commit)
    case (Some(_), Some(t)) => if t in Chain(commit) then Some(commit) else None
    case _ => None
  }

  // ---- The phases of a job ----

  datatype Phase =
    | Reading
    | Fetching(found: Commit)
    | Writing(parent: Option<Commit>)
    | Moving(commit: Commit)
    | Done(answer: Commit)
    | Failed

  function AfterRead(tip: Option<Commit>): Phase {
    if tip == None then Writing(None) else Fetching(tip.value)
  }

  function AfterFetch(job: Job, found: Commit): Phase {
    match Judge(job, Published(found))
    case Keep => Done(found)
    case Refuse => Failed
    case Write => Writing(Some(found))
  }

  function AfterBuild(job: Job, parent: Option<Commit>, stamp: int): Phase {
    var tree := TreeOf(job);
    if tree == None then Failed else Moving(Commit(parent, tree.value, stamp))
  }

  function AfterMove(tip: Option<Commit>, commit: Commit): Phase {
    if Accept(tip, commit).Some? then Done(commit) else Failed
  }

  function TipAfter(tip: Option<Commit>, commit: Commit): Option<Commit> {
    if Accept(tip, commit).Some? then Accept(tip, commit) else tip
  }

  // ---- All jobs together ----

  // moves lists every commit the branch has pointed to, in order.
  datatype State = State(tip: Option<Commit>, moves: seq<Commit>, phases: seq<Phase>)

  ghost predicate Initial(jobs: seq<Job>, s: State) {
    s.tip == None && s.moves == [] && |s.phases| == |jobs|
    && forall i | 0 <= i < |jobs| :: s.phases[i] == Reading
  }

  ghost predicate Same(s: State, s': State) {
    s'.tip == s.tip && s'.moves == s.moves
  }

  // One request of job i reaches the server, or the job dies; a job can also die
  // after the server moved the branch and before it learns so.
  ghost predicate Step(jobs: seq<Job>, s: State, i: nat, s': State)
  {
    && i < |jobs| && |s.phases| == |jobs| && |s'.phases| == |jobs| && s'.phases == s.phases[i := s'.phases[i]]
    && var job, next := jobs[i], s'.phases[i];
       match s.phases[i]
       case Reading => Same(s, s') && next in {Failed, AfterRead(s.tip)}
       case Fetching(found) => Same(s, s') && next in {Failed, AfterFetch(job, found)}
       case Writing(parent) =>
         Same(s, s') && (next == Failed || exists stamp :: next == AfterBuild(job, parent, stamp))
       case Moving(commit) =>
         || (Same(s, s') && next == Failed)
         || (next in {Failed, AfterMove(s.tip, commit)} && s'.tip == TipAfter(s.tip, commit)
             && s'.moves == if s'.tip == s.tip then s.moves else s.moves + [commit])
       case Done(_) => false
       case Failed => false
  }

  ghost predicate Next(jobs: seq<Job>, s: State, s': State) {
    exists i: nat :: Step(jobs, s, i, s')
  }

  ghost predicate IsRun(jobs: seq<Job>, run: seq<State>) {
    && run != [] && Initial(jobs, run[0])
    && forall j, k | 0 <= j < |run| && k == j + 1 && k < |run| :: Next(jobs, run[j], run[k])
  }

  // ---- The invariant ----

  predicate Agree(a: Json, b: Json, key: string) {
    Get(a, key).Some? && Get(a, key) == Get(b, key)
  }

  predicate SameRun(a: Json, b: Json) {
    Agree(a, b, "requestDigest") && Agree(a, b, "requestCommit") && Agree(a, b, "baseCommit") && Agree(a, b, "runId")
  }

  ghost predicate Earlier(a: Json, b: Json) {
    AttemptOf(a).Some? && AttemptOf(b).Some? && AttemptOf(a).value < AttemptOf(b).value
  }

  ghost predicate WrittenBy(job: Job, c: Commit) {
    TreeOf(job) == Some(c.tree) && Published(c) == job.result
  }

  ghost predicate Linked(moves: seq<Commit>) {
    && (moves != [] ==> moves[0].parent == None)
    && forall j, k | 0 <= j < |moves| && k == j + 1 && k < |moves| :: moves[k].parent == Some(moves[j])
  }

  ghost predicate AllWritten(jobs: seq<Job>, moves: seq<Commit>) {
    forall c | c in moves :: exists j | j in jobs :: WrittenBy(j, c)
  }

  ghost predicate Follows(a: Commit, b: Commit) {
    && SameRun(Published(a), Published(b))
    && Earlier(Published(a), Published(b))
    && !IsVerified(Published(a))
  }

  // A branch history: a single chain of commits written by the jobs, all of one
  // run of one request, with increasing attempts, where only the last can be verified.
  ghost predicate Sound(jobs: seq<Job>, moves: seq<Commit>) {
    && Linked(moves)
    && AllWritten(jobs, moves)
    && forall j, k | 0 <= j < k < |moves| :: Follows(moves[j], moves[k])
  }

  // The branch already holds something a job of this context would not replace.
  ghost predicate Settled(job: Job, c: Commit) {
    || IsVerified(Published(c))
    || (AttemptOf(Published(c)).Some?
        && AttemptOf(Published(c)).value >= AttemptNumber(job.context.runAttempt))
  }

  ghost predicate ParentOk(job: Job, moves: seq<Commit>, parent: Option<Commit>) {
    parent.Some? ==> parent.value in moves && Judge(job, Published(parent.value)) == Write
  }

  ghost predicate PhaseOk(job: Job, moves: seq<Commit>, p: Phase) {
    match p
    case Fetching(found) => found in moves
    case Writing(parent) => ParentOk(job, moves, parent)
    case Moving(c) => WrittenBy(job, c) && ParentOk(job, moves, c.parent)
    case Done(c) => c in moves && Settled(job, c)
    case _ => true
  }

  ghost predicate Inv(jobs: seq<Job>, s: State) {
    && |s.phases| == |jobs|
    && Sound(jobs, s.moves)
    && s.tip == (if s.moves == [] then None else Some(s.moves[|s.moves| - 1]))
    && forall i | 0 <= i < |jobs| :: PhaseOk(jobs[i], s.moves, s.phases[i])
  }

  // ---- Chains ----

  // A linked history is the ancestry of its last commit.
  lemma {:induction false} HistoryIsChain(moves: seq<Commit>, k: nat)
    requires Linked(moves) && k < |moves|
    ensures Chain(moves[k]) == moves[..k + 1]
  {
    assert moves[..k + 1] == moves[..k] + [moves[k]];
    if k == 0 {
      assert moves[k].parent == None;
      assert Chain(moves[k]) == [] + [moves[k]];
    } else {
      HistoryIsChain(moves, k - 1);
      assert moves[k].parent == Some(moves[k - 1]);
      assert Chain(moves[k]) == Chain(moves[k - 1]) + [moves[k]];
    }
  }

  lemma Distinct(jobs: seq<Job>, moves: seq<Commit>, j: nat, k: nat)
    requires Sound(jobs, moves) && j < |moves| && k < |moves| && moves[j] == moves[k]
    ensures j == k
  {
  }

  // The server takes a job's commit only if the branch still points to the parent
  // the job judged, unless the branch already points to that very commit.
  lemma AcceptedOnParent(jobs: seq<Job>, moves: seq<Commit>, c: Commit)
    requires Sound(jobs, moves)
    requires c.parent.Some? ==> c.parent.value in moves
    requires var tip := if moves == [] then None else Some(moves[|moves| - 1]);
             Accept(tip, c).Some? && tip != Some(c)
    ensures c.parent == if moves == [] then None else Some(moves[|moves| - 1])
  {
    if moves != [] {
      var tip := moves[|moves| - 1];
      var k :| 0 <= k < |moves| && moves[k] == c.parent.value;
      HistoryIsChain(moves, k);
      assert Chain(c) == moves[..k + 1] + [c];
      var m :| 0 <= m < |moves[..k + 1]| && moves[..k + 1][m] == tip;
      Distinct(jobs, moves, m, |moves| - 1);
    }
  }

  // So it takes one exactly then: it creates the branch where there is none, or moves it
  // from the parent, or leaves it at the commit.
  lemma AcceptedExactly(jobs: seq<Job>, moves: seq<Commit>, c: Commit)
    requires Sound(jobs, moves)
    requires c.parent.Some? ==> c.parent.value in moves
    ensures var tip := if moves == [] then None else Some(moves[|moves| - 1]);
            Accept(tip, c).Some? <==> c.parent == tip || (c.parent.Some? && tip == Some(c))
  {
    var tip := if moves == [] then None else Some(moves[|moves| - 1]);
    if Accept(tip, c).Some? && tip != Some(c) { AcceptedOnParent(jobs, moves, c); }
    if c.parent.Some? { assert Chain(c) == Chain(c.parent.value) + [c]; }
  }

  // ---- One step ----

  lemma JudgedWrite(job: Job, parent: Commit, c: Commit)
    requires JobOk(job) && WrittenBy(job, c) && Judge(job, Published(parent)) == Write
    ensures Follows(parent, c)
  {
  }

  lemma FollowsTransitive(a: Commit, b: Commit, c: Commit)
    requires Follows(a, b) && Follows(b, c)
    ensures Follows(a, c)
  {
  }

  lemma Extended(jobs: seq<Job>, moves: seq<Commit>, job: Job, c: Commit)
    requires Sound(jobs, moves) && job in jobs && WrittenBy(job, c)
    requires c.parent == if moves == [] then None else Some(moves[|moves| - 1])
    requires moves != [] ==> Follows(moves[|moves| - 1], c)
    ensures Sound(jobs, moves + [c])
  {
    var longer, n := moves + [c], |moves|;
    forall j, k | 0 <= j < k < |longer| ensures Follows(longer[j], longer[k]) {
      if k < n {
        assert Follows(moves[j], moves[k]);
      } else if j < n - 1 {
        assert Follows(moves[j], moves[n - 1]);
        FollowsTransitive(moves[j], moves[n - 1], c);
      }
    }
  }

  // Phases stay in order when the history grows.
  lemma PhaseKept(job: Job, moves: seq<Commit>, longer: seq<Commit>, p: Phase)
    requires PhaseOk(job, moves, p) && moves <= longer
    ensures PhaseOk(job, longer, p)
  {
    assert forall c | c in moves :: c in longer;
  }

  lemma BuiltTree(job: Job, parent: Option<Commit>, stamp: int)
    requires TreeOf(job).Some?
    ensures WrittenBy(job, Commit(parent, TreeOf(job).value, stamp))
  {
  }

  lemma SettledByOwn(job: Job, c: Commit)
    requires JobOk(job) && WrittenBy(job, c)
    ensures Settled(job, c)
  {
  }

  lemma KeepIsSettled(job: Job, c: Commit)
    requires Judge(job, Published(c)) == Keep
    ensures Settled(job, c)
  {
  }

  // Only a move that the server accepts changes the branch, and only by one commit.
  lemma StepMoves(jobs: seq<Job>, s: State, i: nat, s': State)
    requires Step(jobs, s, i, s') && !Same(s, s')
    ensures s.phases[i].Moving?
    ensures var c := s.phases[i].commit;
            && Accept(s.tip, c).Some? && s.tip != Some(c)
            && s'.tip == Some(c) && s'.moves == s.moves + [c]
  {
  }

  lemma MoveKeepsHistory(jobs: seq<Job>, moves: seq<Commit>, job: Job, c: Commit)
    requires Sound(jobs, moves) && job in jobs && JobOk(job)
    requires PhaseOk(job, moves, Moving(c))
    requires var tip := if moves == [] then None else Some(moves[|moves| - 1]);
             Accept(tip, c).Some? && tip != Some(c)
    ensures Sound(jobs, moves + [c])
  {
    AcceptedOnParent(jobs, moves, c);
    if moves != [] { JudgedWrite(job, moves[|moves| - 1], c); }
    Extended(jobs, moves, job, c);
  }

  lemma StepKeepsHistory(jobs: seq<Job>, s: State, i: nat, s': State)
    requires forall j | j in jobs :: JobOk(j)
    requires Inv(jobs, s) && Step(jobs, s, i, s')
    ensures Sound(jobs, s'.moves) && s.moves <= s'.moves
    ensures s'.tip == if s'.moves == [] then None else Some(s'.moves[|s'.moves| - 1])
  {
    if !Same(s, s') {
      StepMoves(jobs, s, i, s');
      MoveKeepsHistory(jobs, s.moves, jobs[i], s.phases[i].commit);
    }
  }

  // The job that steps.
  lemma StepKeepsPhase(jobs: seq<Job>, s: State, i: nat, s': State)
    requires forall j | j in jobs :: JobOk(j)
    requires Inv(jobs, s) && Step(jobs, s, i, s')
    ensures PhaseOk(jobs[i], s'.moves, s'.phases[i])
  {
    var job := jobs[i];
    assert PhaseOk(job, s.moves, s.phases[i]);
    StepKeepsHistory(jobs, s, i, s');
    match s.phases[i]
    case Fetching(found) =>
      if Judge(job, Published(found)) == Keep { KeepIsSettled(job, found); }
    case Writing(parent) =>
      if TreeOf(job).Some? {
        forall stamp { BuiltTree(job, parent, stamp); }
      }
    case Moving(c) => SettledByOwn(job, c);
    case _ =>
  }

  lemma StepKeepsInvariant(jobs: seq<Job>, s: State, i: nat, s': State)
    requires forall j | j in jobs :: JobOk(j)
    requires Inv(jobs, s) && Step(jobs, s, i, s')
    ensures Inv(jobs, s') && s.moves <= s'.moves
  {
    StepKeepsHistory(jobs, s, i, s');
    StepKeepsPhase(jobs, s, i, s');
    forall k | 0 <= k < |jobs| ensures PhaseOk(jobs[k], s'.moves, s'.phases[k]) {
      if k != i { PhaseKept(jobs[k], s.moves, s'.moves, s.phases[k]); }
    }
  }

  // ---- Main results, over every run of any number of jobs ----

  lemma RunStep(jobs: seq<Job>, run: seq<State>, k: nat) returns (q: nat)
    requires IsRun(jobs, run) && k + 1 < |run|
    ensures Step(jobs, run[k], q, run[k + 1])
  {
    assert Next(jobs, run[k], run[k + 1]);
    q :| Step(jobs, run[k], q, run[k + 1]);
  }

  lemma {:induction false} RunInvariant(jobs: seq<Job>, run: seq<State>, k: nat)
    requires forall j | j in jobs :: JobOk(j)
    requires IsRun(jobs, run) && k < |run|
    ensures Inv(jobs, run[k])
  {
    if k > 0 {
      RunInvariant(jobs, run, k - 1);
      var i := RunStep(jobs, run, k - 1);
      StepKeepsInvariant(jobs, run[k - 1], i, run[k]);
    }
  }

  ghost predicate AttemptsOrdered(a: Commit, b: Commit) {
    exists s, t :: StatesAttempt(Published(a), s) && StatesAttempt(Published(b), t) && EarlierText(s, t)
  }

  lemma FollowsInText(a: Commit, b: Commit)
    requires Follows(a, b)
    ensures AttemptsOrdered(a, b)
  {
    StatedAttempt(Published(a), "");
    StatedAttempt(Published(b), "");
    var s, t := Decimal(AttemptOf(Published(a)).value), Decimal(AttemptOf(Published(b)).value);
    StatedAttempt(Published(a), s);
    StatedAttempt(Published(b), t);
    AttemptOrder(s, t);
  }

  // In every state of every run, the branch's commits are one parent-linked chain
  // ending at the tip, written by the jobs, all about one run of one request, with
  // strictly increasing attempts, as numbers and as texts, and none but the tip is
  // verified.
  lemma BranchHistoryIsSound(jobs: seq<Job>, run: seq<State>, k: nat)
    requires forall j | j in jobs :: JobOk(j)
    requires IsRun(jobs, run) && k < |run|
    ensures Sound(jobs, run[k].moves)
    ensures if run[k].moves == [] then run[k].tip == None
            else run[k].tip.Some? && Chain(run[k].tip.value) == run[k].moves
    ensures forall a, b | 0 <= a < b < |run[k].moves| :: AttemptsOrdered(run[k].moves[a], run[k].moves[b])
  {
    RunInvariant(jobs, run, k);
    forall a, b | 0 <= a < b < |run[k].moves| ensures AttemptsOrdered(run[k].moves[a], run[k].moves[b]) {
      FollowsInText(run[k].moves[a], run[k].moves[b]);
    }
    var moves := run[k].moves;
    if moves != [] {
      HistoryIsChain(moves, |moves| - 1);
      assert moves[..|moves|] == moves;
    }
  }

  // The branch only ever moves forward.
  lemma {:induction false} HistoryOnlyGrows(jobs: seq<Job>, run: seq<State>, i: nat, k: nat)
    requires forall j | j in jobs :: JobOk(j)
    requires IsRun(jobs, run) && i <= k < |run|
    ensures run[i].moves <= run[k].moves
  {
    if i < k {
      HistoryOnlyGrows(jobs, run, i, k - 1);
      RunInvariant(jobs, run, k - 1);
      var p := RunStep(jobs, run, k - 1);
      StepKeepsInvariant(jobs, run[k - 1], p, run[k]);
    }
  }

  // The branch points to the same commit at two moments only if it was not moved between
  // them.
  lemma SameTipSameMoves(jobs: seq<Job>, run: seq<State>, i: nat, k: nat)
    requires forall j | j in jobs :: JobOk(j)
    requires IsRun(jobs, run) && i <= k < |run|
    ensures run[i].tip == run[k].tip <==> run[i].moves == run[k].moves
  {
    RunInvariant(jobs, run, i);
    RunInvariant(jobs, run, k);
    HistoryOnlyGrows(jobs, run, i, k);
    var before, moves := run[i].moves, run[k].moves;
    if before != [] && run[i].tip == run[k].tip {
      assert moves[|before| - 1] == before[|before| - 1];
      Distinct(jobs, moves, |before| - 1, |moves| - 1);
      assert moves[..|moves|] == moves;
    }
  }

  // Once the branch points to a verified result it never moves again.
  lemma VerifiedIsFinal(jobs: seq<Job>, run: seq<State>, i: nat, k: nat)
    requires forall j | j in jobs :: JobOk(j)
    requires IsRun(jobs, run) && i <= k < |run|
    requires run[i].tip.Some? && IsVerified(Published(run[i].tip.value))
    ensures run[k].tip == run[i].tip && run[k].moves == run[i].moves
  {
    RunInvariant(jobs, run, i);
    RunInvariant(jobs, run, k);
    HistoryOnlyGrows(jobs, run, i, k);
    var n := |run[i].moves| - 1;
    assert run[k].moves[n] == run[i].tip.value;
    assert |run[k].moves| == n + 1;
    assert run[k].moves[..n + 1] == run[k].moves;
  }

  // A job that is not about to write: it has not read yet, or it found the branch
  // holding something it does not replace, or it is over.
  ghost predicate Passive(job: Job, p: Phase) {
    match p
    case Fetching(found) => Judge(job, Published(found)) != Write
    case Writing(_) => false
    case Moving(_) => false
    case _ => true
  }

  ghost predicate SettledIn(job: Job, moves: seq<Commit>) {
    exists c | c in moves :: Settled(job, c)
  }

  lemma TipSettles(before: seq<Commit>, moves: seq<Commit>, job: Job)
    requires SettledIn(job, before) && before <= moves
    requires forall j, k | 0 <= j < k < |moves| :: Follows(moves[j], moves[k])
    ensures moves != [] && Settled(job, moves[|moves| - 1])
  {
    var c :| c in before && Settled(job, c);
    var n := |moves| - 1;
    var m :| 0 <= m < |moves| && moves[m] == c;
    if m < n {
      assert Follows(moves[m], moves[n]);
    }
  }

  lemma SettledStays(jobs: seq<Job>, run: seq<State>, i: nat, k: nat, job: Job)
    requires forall j | j in jobs :: JobOk(j)
    requires IsRun(jobs, run) && i <= k < |run|
    requires SettledIn(job, run[i].moves)
    ensures run[k].tip.Some? && Settled(job, run[k].tip.value)
  {
    RunInvariant(jobs, run, k);
    HistoryOnlyGrows(jobs, run, i, k);
    TipSettles(run[i].moves, run[k].moves, job);
  }

  lemma SettledIsNotReplaced(job: Job, c: Commit)
    requires Settled(job, c)
    ensures Judge(job, Published(c)) != Write
  {
  }

  lemma PassiveStep(jobs: seq<Job>, s: State, q: nat, s': State, p: nat)
    requires Step(jobs, s, q, s') && p < |jobs| && Passive(jobs[p], s.phases[p])
    requires q == p && s.phases[p] == Reading ==> s.tip.Some? && Settled(jobs[p], s.tip.value)
    ensures Passive(jobs[p], s'.phases[p])
    ensures q == p ==> Same(s, s')
  {
    if q == p && s.phases[p] == Reading { SettledIsNotReplaced(jobs[p], s.tip.value); }
  }

  ghost predicate PassiveAt(jobs: seq<Job>, s: State, p: nat)
    requires p < |jobs|
  {
    |s.phases| == |jobs| && Passive(jobs[p], s.phases[p])
  }

  lemma PassiveNext(jobs: seq<Job>, run: seq<State>, i: nat, k: nat, p: nat, q: nat)
    requires forall j | j in jobs :: JobOk(j)
    requires IsRun(jobs, run) && i <= k && k + 1 < |run| && p < |jobs|
    requires SettledIn(jobs[p], run[i].moves) && PassiveAt(jobs, run[k], p)
    requires Step(jobs, run[k], q, run[k + 1])
    ensures PassiveAt(jobs, run[k + 1], p)
    ensures q == p ==> Same(run[k], run[k + 1])
  {
    SettledStays(jobs, run, i, k, jobs[p]);
    PassiveStep(jobs, run[k], q, run[k + 1], p);
  }

  // Publishing again changes nothing. Once the branch holds a verified result or an
  // attempt at least as late as the job's, a job that has not read the branch yet
  // never gets to write, in any continuation of the run.
  lemma {:induction false} StaysPassive(jobs: seq<Job>, run: seq<State>, i: nat, k: nat, p: nat)
    requires forall j | j in jobs :: JobOk(j)
    requires IsRun(jobs, run) && i <= k < |run| && p < |jobs|
    requires SettledIn(jobs[p], run[i].moves) && PassiveAt(jobs, run[i], p)
    ensures PassiveAt(jobs, run[k], p)
  {
    if i < k {
      StaysPassive(jobs, run, i, k - 1, p);
      var q := RunStep(jobs, run, k - 1);
      PassiveNext(jobs, run, i, k - 1, p, q);
    }
  }

  // So none of its steps moves the branch.
  lemma RepublishingIsPassive(jobs: seq<Job>, run: seq<State>, i: nat, k: nat, p: nat)
    requires forall j | j in jobs :: JobOk(j)
    requires IsRun(jobs, run) && i <= k && k + 1 < |run| && p < |jobs|
    requires SettledIn(jobs[p], run[i].moves) && PassiveAt(jobs, run[i], p)
    requires Step(jobs, run[k], p, run[k + 1])
    ensures Same(run[k], run[k + 1])
  {
    StaysPassive(jobs, run, i, k, p);
    PassiveNext(jobs, run, i, k, p, p);
  }

  // In particular after a job of the same context is done.
  lemma SameContextIsDone(jobs: seq<Job>, run: seq<State>, i: nat, a: nat, p: nat)
    requires forall j | j in jobs :: JobOk(j)
    requires IsRun(jobs, run) && i < |run| && a < |jobs| && p < |jobs|
    requires jobs[a].context == jobs[p].context
    requires |run[i].phases| == |jobs| && run[i].phases[a].Done?
    ensures SettledIn(jobs[p], run[i].moves)
  {
    RunInvariant(jobs, run, i);
    var c := run[i].phases[a].answer;
    assert c in run[i].moves && Settled(jobs[a], c);
    assert Settled(jobs[p], c);
  }
}
