// The publish() procedure of publish_request.py, lines 53-95, against a server
// that other jobs use at the same time.
module PublishClient {
  import opened Options
  import opened Results
  import opened Attempts
  import opened PublishProtocol

  // The branch after the server handled some requests, refusing what it refuses.
  function Served(tip: Option<Commit>, requests: seq<Commit>): Option<Commit>
    decreases |requests|
  {
    if requests == [] then tip else Served(TipAfter(tip, requests[0]), requests[1..])
  }

  lemma {:induction false} ServedConcat(tip: Option<Commit>, a: seq<Commit>, b: seq<Commit>)
    ensures Served(tip, a + b) == Served(Served(tip, a), b)
    decreases |a|
  {
    if a == [] {
      assert a + b == b;
    } else {
      assert (a + b)[1..] == a[1..] + b;
      ServedConcat(TipAfter(tip, a[0]), a[1..], b);
    }
  }

  // The result branch of one request on the server. `others` holds, for each of our
  // calls, the move requests of other jobs that the server handles just before it.
  class GitHub {
    var tip: Option<Commit>
    var others: seq<seq<Commit>>

    constructor (branch: Option<Commit>, schedule: seq<seq<Commit>>)
      ensures tip == branch && others == schedule
    {
      tip, others := branch, schedule;
    }

    // Every call waits behind the other jobs' requests.
    method Call() returns (ghost served: seq<Commit>)
      modifies this
      ensures old(others) == [] ==> served == [] && others == []
      ensures tip == Served(old(tip), served)
    {
      served := [];
      if others != [] {
        var requests := others[0];
        others := others[1..];
        served := requests;
        for k := 0 to |requests|
          invariant Served(tip, requests[k..]) == Served(old(tip), requests)
        {
          assert requests[k..][1..] == requests[k + 1..];
          tip := TipAfter(tip, requests[k]);
        }
        assert requests[|requests|..] == [];
      }
    }

    method GetRef() returns (found: Option<Commit>, ghost served: seq<Commit>)
      modifies this
      ensures old(others) == [] ==> served == [] && others == []
      ensures tip == Served(old(tip), served) && found == tip
    {
      served := Call();
      found := tip;
    }

    method MoveRef(commit: Commit) returns (ok: bool, ghost served: seq<Commit>)
      modifies this
      ensures old(others) == [] ==> served == [] && others == []
      ensures var before := Served(old(tip), served);
              ok == Accept(before, commit).Some? && tip == TipAfter(before, commit)
    {
      served := Call();
      ok := Accept(tip, commit).Some?;
      tip := TipAfter(tip, commit);
    }
  }

  // The phase of a job that read `seen` and judged the document it found there.
  function Judged(job: Job, seen: Option<Commit>): Phase {
    var read := AfterRead(seen);
    if read.Fetching? then AfterFetch(job, read.found) else read
  }

  // The phase in which it is about to move the branch, or over.
  function Prepared(job: Job, seen: Option<Commit>, stamp: int): Phase {
    var judged := Judged(job, seen);
    if judged.Writing? then AfterBuild(job, judged.parent, stamp) else judged
  }

  // publish()'s answer and the branch behind it, if the branch was `seen` when it
  // was read and `before` when the job was about to move it, or was over.
  function Outcome(job: Job, seen: Option<Commit>, before: Option<Commit>, stamp: int)
    : (Option<Commit>, Option<Commit>)
  {
    match Prepared(job, seen, stamp)
    case Moving(c) => (if Accept(before, c).Some? then Some(c) else None, TipAfter(before, c))
    case Done(answer) => (Some(answer), before)
    case _ => (None, before)
  }

  // publish() in other words: it answers with what it keeps; it writes a commit of its own
  // on a branch that is absent or holds what it replaces, if its document is not too long
  // and the server takes the move; and it raises in any other case.
  lemma OutcomeExactly(job: Job, seen: Option<Commit>, before: Option<Commit>, stamp: int)
    requires AttemptText(job.context.runAttempt)
    ensures var outcome, tree := Outcome(job, seen, before, stamp), TreeOf(job);
            var writes := seen == None || Replaced(job.context, Published(seen.value));
            if seen.Some? && Kept(job.context, Published(seen.value)) then outcome == (seen, before)
            else if !writes || tree == None then outcome == (None, before)
            else
              var c := Commit(seen, tree.value, stamp);
              outcome == if Accept(before, c).Some? then (Some(c), Some(c)) else (None, before)
  {
    if seen.Some? { JudgesExactly(job, Published(seen.value)); }
  }

  // The result, and beside it the receipt and certificate; None where publish() raises.
  method FilesOf(job: Job) returns (files: Option<seq<Entry>>)
    ensures files == TreeOf(job)
  {
    if job.payload > MAX_RESULT { return None; }
    var document := Entry(RESULT_FILE, Document(job.result));
    if job.receipt == None { return Some([document]); }
    var certificate := CertificateFile(job.result);
    if certificate == None { return None; }
    return Some([document, Entry(RECEIPT_FILE, Raw(job.receipt.value)),
                 Entry(CERTIFICATE_FILE, Raw(certificate.value))]);
  }

  // One call for each blob.
  method Upload(api: GitHub, files: seq<Entry>) returns (tree: seq<Entry>, ghost served: seq<Commit>)
    modifies api
    ensures tree == files && api.tip == Served(old(api.tip), served)
    ensures old(api.others) == [] ==> served == [] && api.others == []
  {
    tree, served := [], [];
    for k := 0 to |files|
      invariant tree == files[..k] && api.tip == Served(old(api.tip), served)
      invariant old(api.others) == [] ==> served == [] && api.others == []
    {
      ghost var more := api.Call();
      ServedConcat(old(api.tip), served, more);
      served := served + more;
      tree := tree + [files[k]];
    }
  }

  method Publish(api: GitHub, job: Job, stamp: int)
    returns (r: Option<Commit>, ghost first: seq<Commit>, ghost second: seq<Commit>)
    modifies api
    ensures old(api.others) == [] ==> first == [] && second == []
    ensures var seen := Served(old(api.tip), first);
            var before := Served(seen, second);
            (r, api.tip) == Outcome(job, seen, before, stamp)
  {
    second := [];
    var parent;
    parent, first := api.GetRef();
    ghost var seen := api.tip;
    ghost var served;
    if parent.Some? {
      served := api.Call();
      second := served;
      var judgement := Judge(job, Published(parent.value));
      if judgement == Keep { return parent, first, second; }
      if judgement == Refuse { return None, first, second; }
    }
    var files := FilesOf(job);
    if files == None { return None, first, second; }
    var tree;
    tree, served := Upload(api, files.value);
    ServedConcat(seen, second, served);
    second := second + served;
    var commit := Commit(parent, tree, stamp);
    var ok;
    ok, served := api.MoveRef(commit);
    ServedConcat(seen, second, served);
    second := second + served;
    return if ok then Some(commit) else None, first, second;
  }
}
