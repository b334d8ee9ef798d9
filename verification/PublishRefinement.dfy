// publish_request.py, lines 53-95: every job of an interleaved run that does not die
// does what the program publish() does.
module PublishRefinement {
  import opened Options
  import opened PublishProtocol
  import opened PublishClient

  predicate Over(p: Phase) {
    p.Done? || p.Failed?
  }

  // publish()'s answer, as the last phase records it.
  function Answer(p: Phase): Option<Commit> {
    if p.Done? then Some(p.answer) else None
  }

  // The job takes its next step and does not die in it.
  ghost predicate Lives(jobs: seq<Job>, s: State, i: nat, s': State)
    requires i < |jobs| && i < |s.phases| && i < |s'.phases|
  {
    var job, next := jobs[i], s'.phases[i];
    match s.phases[i]
    case Reading => next == AfterRead(s.tip)
    case Fetching(found) => next == AfterFetch(job, found)
    case Writing(parent) => exists stamp :: next == AfterBuild(job, parent, stamp)
    case Moving(commit) => next == AfterMove(s.tip, commit) && s'.tip == TipAfter(s.tip, commit)
    case _ => false
  }

  ghost predicate Sized(jobs: seq<Job>, run: seq<State>) {
    forall k | 0 <= k < |run| :: |run[k].phases| == |jobs|
  }

  // From a on, no step of job i is its death.
  ghost predicate Survives(jobs: seq<Job>, run: seq<State>, a: nat, i: nat)
    requires i < |jobs| && Sized(jobs, run)
  {
    forall j, k | a <= j < |run| && k == j + 1 && k < |run| ::
      run[k].phases[i] == run[j].phases[i] || Lives(jobs, run[j], i, run[k])
  }

  lemma RunIsSized(jobs: seq<Job>, run: seq<State>, k: nat)
    requires IsRun(jobs, run) && k < |run|
    ensures |run[k].phases| == |jobs|
  {
    if k > 0 { var q := RunStep(jobs, run, k - 1); }
  }

  // ---- One step ----

  // The only job whose phase a step changes is the one that takes it.
  lemma Stepper(jobs: seq<Job>, s: State, q: nat, s': State, i: nat)
    requires Step(jobs, s, q, s') && i < |jobs| && s'.phases[i] != s.phases[i]
    ensures q == i
  {
  }

  lemma OnlyMovingMoves(jobs: seq<Job>, s: State, i: nat, s': State)
    requires Step(jobs, s, i, s') && !s.phases[i].Moving?
    ensures Same(s, s')
  {
  }

  lemma NoStepWhenOver(jobs: seq<Job>, s: State, i: nat, s': State)
    requires i < |s.phases| && Over(s.phases[i])
    ensures !Step(jobs, s, i, s')
  {
  }

  // ---- What a job has done so far ----

  // The last step, from km to the next moment: answer and branch are publish()'s.
  ghost predicate Finished(jobs: seq<Job>, run: seq<State>, i: nat, p: Phase, kr: nat, km: nat, stamp: int)
    requires i < |jobs| && Sized(jobs, run) && kr < |run| && km + 1 < |run|
  {
    && !Over(run[km].phases[i]) && run[km + 1].phases[i] == p
    && (Answer(p), run[km + 1].tip) == Outcome(jobs[i], run[kr].tip, run[km].tip, stamp)
  }

  // It read the branch at moment kr, and what it knows now follows from that; if it is
  // over, its last step was at km.
  ghost predicate Progress(jobs: seq<Job>, run: seq<State>, i: nat, k: nat, kr: nat, km: nat, stamp: int)
    requires i < |jobs| && k < |run| && Sized(jobs, run)
  {
    var job, p, began := jobs[i], run[k].phases[i], kr < k && run[kr].phases[i] == Reading;
    match p
    case Reading => true
    case Fetching(_) => began && AfterRead(run[kr].tip) == p
    case Writing(_) => began && Judged(job, run[kr].tip) == p
    case Moving(_) => began && Prepared(job, run[kr].tip, stamp) == p
    case Done(_) => began && kr <= km < k && Finished(jobs, run, i, p, kr, km, stamp)
    case Failed => began && kr <= km < k && Finished(jobs, run, i, p, kr, km, stamp)
  }

  lemma ProgressStep(jobs: seq<Job>, run: seq<State>, i: nat, k: nat, kr: nat, km: nat, stamp: int)
    returns (kr': nat, km': nat, stamp': int)
    requires i < |jobs| && k + 1 < |run| && Sized(jobs, run) && Progress(jobs, run, i, k, kr, km, stamp)
    requires Step(jobs, run[k], i, run[k + 1]) && Lives(jobs, run[k], i, run[k + 1])
    ensures Progress(jobs, run, i, k + 1, kr', km', stamp') && kr' >= if run[k].phases[i] == Reading then k else kr
  {
    kr', km', stamp' := kr, k, stamp;
    if !run[k].phases[i].Moving? { OnlyMovingMoves(jobs, run[k], i, run[k + 1]); }
    match run[k].phases[i] {
      case Reading => kr' := k;
      case Writing(parent) => stamp' :| run[k + 1].phases[i] == AfterBuild(jobs[i], parent, stamp');
      case _ =>
    }
  }

  lemma {:induction false} Tracked(jobs: seq<Job>, run: seq<State>, a: nat, i: nat, k: nat)
    returns (kr: nat, km: nat, stamp: int)
    requires IsRun(jobs, run) && a <= k < |run| && i < |jobs| && Sized(jobs, run)
    requires run[a].phases[i] == Reading && Survives(jobs, run, a, i)
    ensures Progress(jobs, run, i, k, kr, km, stamp) && kr >= a
  {
    kr, km, stamp := a, a, 0;
    if k > a {
      kr, km, stamp := Tracked(jobs, run, a, i, k - 1);
      if run[k].phases[i] != run[k - 1].phases[i] {
        var q := RunStep(jobs, run, k - 1);
        Stepper(jobs, run[k - 1], q, run[k], i);
        assert Lives(jobs, run[k - 1], i, run[k]);
        kr, km, stamp := ProgressStep(jobs, run, i, k - 1, kr, km, stamp);
      }
    }
  }

  // ---- What the other jobs do meanwhile ----

  // Between two moments, a job other than i asked to move the branch to c, and it moved.
  ghost predicate MovedByOther(jobs: seq<Job>, run: seq<State>, from: nat, to: nat, i: nat, c: Commit) {
    exists j: nat, q: nat {:trigger Step(jobs, run[j], q, run[j + 1])} ::
      && from <= j < to && j + 1 < |run| && q != i && Step(jobs, run[j], q, run[j + 1])
      && run[j].phases[q] == Moving(c) && run[j + 1].tip == Some(c) != run[j].tip
  }

  ghost predicate AllByOthers(jobs: seq<Job>, run: seq<State>, from: nat, to: nat, i: nat, served: seq<Commit>) {
    forall c | c in served :: MovedByOther(jobs, run, from, to, i, c)
  }

  lemma ServedStep(jobs: seq<Job>, run: seq<State>, j: nat, i: nat) returns (served: seq<Commit>)
    requires IsRun(jobs, run) && j + 1 < |run| && i < |jobs| && Sized(jobs, run)
    requires !Over(run[j + 1].phases[i])
    ensures run[j + 1].tip == Served(run[j].tip, served) && AllByOthers(jobs, run, j, j + 1, i, served)
    ensures !Over(run[j].phases[i])
  {
    var q := RunStep(jobs, run, j);
    served := [];
    if run[j + 1].phases[i] != run[j].phases[i] { Stepper(jobs, run[j], q, run[j + 1], i); }
    if run[j + 1].tip != run[j].tip {
      var c := run[j].phases[q].commit;
      served := [c];
      assert Served(TipAfter(run[j].tip, c), [c][1..]) == TipAfter(run[j].tip, c);
      assert MovedByOther(jobs, run, j, j + 1, i, c);
    }
  }

  // Between two moments at which job i is not over, the server served requests of others.
  lemma {:induction false} ServedBetween(jobs: seq<Job>, run: seq<State>, a: nat, b: nat, i: nat)
    returns (served: seq<Commit>)
    requires IsRun(jobs, run) && a <= b < |run| && i < |jobs| && Sized(jobs, run)
    requires !Over(run[b].phases[i])
    ensures run[b].tip == Served(run[a].tip, served) && AllByOthers(jobs, run, a, b, i, served)
  {
    served := [];
    if a < b {
      var more := ServedStep(jobs, run, b - 1, i);
      served := ServedBetween(jobs, run, a, b - 1, i);
      ServedConcat(run[a].tip, served, more);
      served := served + more;
    }
  }

  // ---- The refinement ----

  // In every run, a job that has not begun at moment a, does not die, and is over at
  // moment k, has done what publish() promises. It read the branch at one moment and took
  // its last step at another; up to the first, and between the two, the branch was moved
  // by other jobs' requests alone; and its answer and the branch after its last step are
  // publish()'s Outcome of the branch at these moments.
  lemma RunRefinesPublish(jobs: seq<Job>, run: seq<State>, a: nat, i: nat, k: nat)
    returns (first: seq<Commit>, second: seq<Commit>, stamp: int, read: nat, last: nat)
    requires IsRun(jobs, run) && a <= k < |run| && i < |jobs| && Sized(jobs, run)
    requires run[a].phases[i] == Reading && Over(run[k].phases[i]) && Survives(jobs, run, a, i)
    ensures a <= read <= last < k && run[read].phases[i] == Reading
    ensures !Over(run[last].phases[i]) && run[last + 1].phases[i] == run[k].phases[i]
    ensures AllByOthers(jobs, run, a, read, i, first) && AllByOthers(jobs, run, read, last, i, second)
    ensures Served(run[a].tip, first) == run[read].tip && Served(run[read].tip, second) == run[last].tip
    ensures (Answer(run[k].phases[i]), run[last + 1].tip) == Outcome(jobs[i], run[read].tip, run[last].tip, stamp)
  {
    read, last, stamp := Tracked(jobs, run, a, i, k);
    first := ServedBetween(jobs, run, a, read, i);
    second := ServedBetween(jobs, run, read, last, i);
  }

  // Which of these jobs land, in every run. A job that got to its move lands exactly if
  // nobody moved the branch between its read and its move, or somebody had moved it to that
  // very commit; otherwise it fails. In any case but the first the branch is left alone.
  lemma LandsExactly(jobs: seq<Job>, run: seq<State>, a: nat, i: nat, k: nat) returns (stamp: int, read: nat, last: nat)
    requires (forall j | j in jobs :: JobOk(j)) && IsRun(jobs, run) && a <= k < |run| && i < |jobs| && Sized(jobs, run)
    requires run[a].phases[i] == Reading && Over(run[k].phases[i]) && Survives(jobs, run, a, i)
    ensures a <= read <= last < k && run[read].phases[i] == Reading && run[last + 1].phases[i] == run[k].phases[i]
    ensures match Prepared(jobs[i], run[read].tip, stamp)
            case Moving(c) =>
              && c.parent == run[read].tip && WrittenBy(jobs[i], c)
              && run[k].phases[i] in {Done(c), Failed}
              && (run[k].phases[i] == Done(c) <==>
                  run[last].moves == run[read].moves || (c.parent.Some? && run[last].tip == Some(c)))
              && run[last + 1].tip == if run[k].phases[i] == Done(c) then Some(c) else run[last].tip
            case p => run[k].phases[i] == p && run[last + 1].tip == run[last].tip
  {
    var first, second;
    first, second, stamp, read, last := RunRefinesPublish(jobs, run, a, i, k);
    match Prepared(jobs[i], run[read].tip, stamp)
    case Moving(c) =>
      BuiltTree(jobs[i], c.parent, stamp);
      RunInvariant(jobs, run, read);
      RunInvariant(jobs, run, last);
      HistoryOnlyGrows(jobs, run, read, last);
      AcceptedExactly(jobs, run[last].moves, c);
      SameTipSameMoves(jobs, run, read, last);
    case _ =>
  }

  // ---- Alone ----

  // Without a competing write, publishing lands: on a sound history whose tip this
  // job's context may replace, the branch afterwards ends in the job's own document.
  lemma UncontendedPublishLands(jobs: seq<Job>, moves: seq<Commit>, job: Job, stamp: int)
    requires Sound(jobs, moves) && JobOk(job) && TreeOf(job).Some?
    requires moves != [] ==> Judge(job, Published(moves[|moves| - 1])) == Write
    ensures var tip := if moves == [] then None else Some(moves[|moves| - 1]);
            var commit := Commit(tip, TreeOf(job).value, stamp);
            Outcome(job, tip, tip, stamp) == (Some(commit), Some(commit)) && Published(commit) == job.result
  {
    var tip := if moves == [] then None else Some(moves[|moves| - 1]);
    BuiltTree(job, tip, stamp);
    if moves != [] {
      var commit := Commit(tip, TreeOf(job).value, stamp);
      assert tip.value in Chain(tip.value);
      assert Chain(commit) == Chain(tip.value) + [commit];
    }
  }

  // The branch stays as it was until a job that is alone has taken its last step.
  lemma {:induction false} AloneKeepsTip(jobs: seq<Job>, run: seq<State>, a: nat, i: nat, k: nat)
    requires a <= k < |run| && i < |jobs| && Sized(jobs, run)
    requires forall j, l | a <= j < |run| && l == j + 1 && l < |run| :: Step(jobs, run[j], i, run[l])
    requires !Over(run[k].phases[i])
    ensures Same(run[a], run[k])
  {
    if k > a {
      assert Step(jobs, run[k - 1], i, run[k]);
      AloneKeepsTip(jobs, run, a, i, k - 1);
      OnlyMovingMoves(jobs, run[k - 1], i, run[k]);
    }
  }

  // A job that may write, and from some moment on takes all the steps and does not die,
  // lands: it answers with a commit of its own document on the tip, and the branch
  // points to it.
  lemma PublishLands(jobs: seq<Job>, run: seq<State>, a: nat, i: nat, k: nat) returns (c: Commit)
    requires (forall j | j in jobs :: JobOk(j)) && IsRun(jobs, run) && a < k == |run| - 1 && i < |jobs|
    requires Sized(jobs, run) && Survives(jobs, run, a, i)
    requires forall j, l | a <= j < |run| && l == j + 1 && l < |run| :: Step(jobs, run[j], i, run[l])
    requires run[a].phases[i] == Reading && Over(run[k].phases[i])
    requires TreeOf(jobs[i]).Some?
    requires run[a].tip.Some? ==> Judge(jobs[i], Published(run[a].tip.value)) == Write
    ensures run[k].phases[i] == Done(c) && run[k].tip == Some(c)
    ensures c.parent == run[a].tip && Published(c) == jobs[i].result
  {
    var kr, km, stamp := Tracked(jobs, run, a, i, k);
    AloneKeepsTip(jobs, run, a, i, km);
    AloneKeepsTip(jobs, run, a, i, kr);
    if km + 1 < k { NoStepWhenOver(jobs, run[km + 1], i, run[km + 2]); }
    RunInvariant(jobs, run, a);
    UncontendedPublishLands(jobs, run[a].moves, jobs[i], stamp);
    c := Commit(run[a].tip, TreeOf(jobs[i]).value, stamp);
  }
}
