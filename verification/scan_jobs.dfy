/**
 Scan jobs: one worker per job writing a status that clients poll under a lock, and the bounded
 table of jobs.
 */
module ScanJobs {
  import opened Common

  const MAXIMUM_FINDINGS: nat := 512
  const MAXIMUM_JOBS: nat := 128
  const PRUNE_BELOW: nat := 96

  datatype JobState = Queued | Running | Completed | Failed | Cancelled

  datatype Verdict = Clean | LowRisk | Suspicious | Malicious | Skipped

  datatype Finding = Finding(path: string, verdict: Verdict, sha256: string)

  datatype Status = Status(state: JobState, finding: Option<Finding>, findings: seq<Finding>, filesScanned: nat,
                           totalFiles: nat, currentPath: string, error: Option<string>)

  predicate Terminal(state: JobState) {
    state.Completed? || state.Failed? || state.Cancelled?
  }

  // ---------- What the worker meets ----------

  datatype Collected =
    | Targets(paths: seq<string>)
    | CollectFailed(error: string, cancelled: bool)
    | NotImpersonated(error: string)

  datatype Allowance = NotListed | Listed | Unreadable

  /** The course of one target; an excluded path is a finding with verdict Skipped and no digest. */
  datatype Answer =
    | CancelSeen
    | ExclusionsUnreadable
    | OwnerNotImpersonated
    | CancelledInScan
    | Unscannable(error: string)
    | Scanned(finding: Finding, allowance: Allowance, stored: bool)

  /** A finding whose digest the user allows is recorded as skipped. */
  function Recorded(f: Finding, allowance: Allowance): Finding {
    if f.sha256 != "" && allowance.Listed? then f.(verdict := Skipped) else f
  }

  predicate Recordable(a: Answer) {
    a.Scanned? && !(a.finding.sha256 != "" && a.allowance.Unreadable?) && a.stored
  }

  /** Answers after which the worker goes on to the next target. */
  predicate Continues(a: Answer) {
    a.Unscannable? || Recordable(a)
  }

  /** How a job ends on an answer after which the worker does not go on. */
  function EndState(a: Answer): JobState {
    if a.CancelSeen? || a.CancelledInScan? then Cancelled else Failed
  }

  /** A cancelled job shows no current path; one cancelled before the target never showed it. */
  function EndPath(a: Answer, target: string): string {
    if a.CancelSeen? || a.CancelledInScan? then "" else target
  }

  /** At most 512 results other than clean ones are shown. */
  function Show(findings: seq<Finding>, shown: Option<Finding>): seq<Finding> {
    if shown.Some? && shown.value.verdict != Clean && |findings| < MAXIMUM_FINDINGS then findings + [shown.value] else findings
  }

  /** The results worth showing, in order. */
  function Notable(answers: seq<Answer>): seq<Finding> {
    if answers == [] then []
    else
      var a := answers[|answers| - 1];
      Notable(answers[..|answers| - 1])
      + (if Recordable(a) && Recorded(a.finding, a.allowance).verdict != Clean then [Recorded(a.finding, a.allowance)] else [])
  }

  function Take(s: seq<Finding>, n: nat): seq<Finding> {
    if |s| <= n then s else s[..n]
  }

  /** How many answers the worker acts on: up to and including the first that ends the scan. */
  function Consumed(answers: seq<Answer>): (n: nat)
    ensures n <= |answers|
    ensures forall i :: 0 <= i < n - 1 ==> Continues(answers[i])
  {
    if answers == [] then 0
    else if !Continues(answers[0]) then 1
    else 1 + Consumed(answers[1..])
  }

  // ---------- The status cell ----------

  ghost predicate Consistent(s: Status) {
    && s.filesScanned <= s.totalFiles
    && (s.state.Completed? ==> s.filesScanned == s.totalFiles)
    && |s.findings| <= MAXIMUM_FINDINGS
  }

  /** What a client may see from one poll to the next. */
  ghost predicate Advances(a: Status, b: Status) {
    && (Terminal(a.state) ==> b == a)
    && a.filesScanned <= b.filesScanned && a.findings <= b.findings
  }

  ghost predicate GoodHistory(h: seq<Status>) {
    && h != []
    && (forall i :: 0 <= i < |h| ==> Consistent(h[i]))
    && (forall i :: 0 <= i < |h| - 1 ==> !Terminal(h[i].state) && Advances(h[i], h[i + 1]))
  }

  lemma {:induction false} HistoryAdvances(h: seq<Status>, i: nat, j: nat)
    requires GoodHistory(h) && i <= j < |h|
    ensures Advances(h[i], h[j])
    decreases j - i
  {
    if i < j {
      HistoryAdvances(h, i + 1, j);
      assert Advances(h[i], h[i + 1]);
    }
  }

  /** A mutex-protected status; every locked write is one entry of the history. */
  class StatusCell {
    var status: Status
    ghost var history: seq<Status>

    ghost predicate Valid()
      reads this
    {
      GoodHistory(history) && history[|history| - 1] == status
    }

    constructor (target: string)
      ensures Valid() && status == Status(Running, None, [], 0, 0, "", None)
    {
      status := Status(Running, None, [], 0, 0, "", None);
      history := [Status(Running, None, [], 0, 0, "", None)];
    }

    method Write(next: Status)
      requires Valid() && !Terminal(status.state) && Consistent(next) && Advances(status, next)
      modifies this
      ensures Valid() && status == next && old(history) <= history
    {
      status := next;
      history := history + [next];
    }
  }

  // ---------- The worker ----------

  method Fail(cell: StatusCell, message: string)
    requires cell.Valid() && cell.status.state == Running && Consistent(cell.status)
    modifies cell
    ensures cell.Valid() && cell.status == old(cell.status).(state := Failed, error := Some(message))
  {
    cell.Write(cell.status.(state := Failed, error := Some(message)));
  }

  method FinishCancelled(cell: StatusCell)
    requires cell.Valid() && cell.status.state == Running && Consistent(cell.status)
    modifies cell
    ensures cell.Valid() && cell.status == old(cell.status).(state := Cancelled, currentPath := "")
  {
    cell.Write(cell.status.(state := Cancelled, currentPath := ""));
  }

  /** Announces how many files there are, or ends the job. */
  method CollectTargets(cell: StatusCell, collected: Collected) returns (targets: Option<seq<string>>)
    requires cell.Valid() && cell.status.state == Running && cell.status.filesScanned == 0
    modifies cell
    ensures cell.Valid() && cell.status.filesScanned == 0 && cell.status.findings == old(cell.status.findings)
    ensures targets.Some? <==> collected.Targets? && collected.paths != []
    ensures targets.Some? ==> targets.value == collected.paths && cell.status == old(cell.status).(totalFiles := |collected.paths|)
    ensures targets.None? ==>
              cell.status == old(cell.status).(
                state := if collected.CollectFailed? && collected.cancelled then Cancelled else Failed,
                error := cell.status.error) && cell.status.error.Some?
  {
    match collected
    case NotImpersonated(error) =>
      Fail(cell, error);
      return None;
    case CollectFailed(error, cancelled) =>
      cell.Write(cell.status.(state := if cancelled then Cancelled else Failed, error := Some(error)));
      return None;
    case Targets(paths) =>
      if paths == [] {
        Fail(cell, "No regular files were found in the selected target");
        return None;
      }
      cell.Write(cell.status.(totalFiles := |paths|));
      return Some(paths);
  }

  method RecordFinding(cell: StatusCell, f: Finding, allowance: Allowance, stored: bool, singleFile: bool) returns (goOn: bool)
    requires cell.Valid() && cell.status.state == Running && cell.status.filesScanned < cell.status.totalFiles
    modifies cell
    ensures cell.Valid() && goOn == Recordable(Scanned(f, allowance, stored))
    ensures !goOn ==> cell.status == old(cell.status).(state := Failed, error := cell.status.error) && cell.status.error.Some?
    ensures goOn ==>
              var r := Recorded(f, allowance);
              cell.status == old(cell.status).(
                filesScanned := old(cell.status.filesScanned) + 1,
                finding := if singleFile then Some(r) else old(cell.status.finding),
                findings := if r.verdict != Clean && |old(cell.status.findings)| < MAXIMUM_FINDINGS
                            then old(cell.status.findings) + [r] else old(cell.status.findings))
  {
    var finding := f;
    if f.sha256 != "" {
      if allowance.Unreadable? {
        Fail(cell, "Read allowed hashes");
        return false;
      }
      if allowance.Listed? {
        finding := f.(verdict := Skipped);
      }
    }
    if !stored {
      Fail(cell, "Persist scan result");
      return false;
    }
    var next := cell.status.(filesScanned := cell.status.filesScanned + 1);
    if singleFile {
      next := next.(finding := Some(finding));
    }
    if finding.verdict != Clean && |next.findings| < MAXIMUM_FINDINGS {
      next := next.(findings := next.findings + [finding]);
    }
    cell.Write(next);
    goOn := true;
  }

  /** One turn of the worker's loop. */
  method ScanTarget(cell: StatusCell, target: string, a: Answer, singleFile: bool) returns (goOn: bool)
    requires cell.Valid() && cell.status.state == Running && cell.status.filesScanned < cell.status.totalFiles
    modifies cell
    ensures cell.Valid() && goOn == Continues(a)
    ensures !goOn ==> cell.status == old(cell.status).(state := EndState(a), currentPath := EndPath(a, target),
                                                       error := cell.status.error)
    ensures !goOn ==> (cell.status.state == Failed ==> cell.status.error.Some?)
    ensures goOn ==>
              var shown := if Recordable(a) then Some(Recorded(a.finding, a.allowance)) else None;
              cell.status == old(cell.status).(
                filesScanned := old(cell.status.filesScanned) + 1, currentPath := target,
                error := if a.Unscannable? then Some(a.error) else old(cell.status.error),
                finding := if shown.Some? && singleFile then shown else old(cell.status.finding),
                findings := Show(old(cell.status.findings), shown))
  {
    if a.CancelSeen? {
      FinishCancelled(cell);
      return false;
    }
    cell.Write(cell.status.(currentPath := target));
    match a
    case ExclusionsUnreadable =>
      Fail(cell, "Read exclusions");
      goOn := false;
    case OwnerNotImpersonated =>
      Fail(cell, "Impersonate scan owner");
      goOn := false;
    case CancelledInScan =>
      FinishCancelled(cell);
      goOn := false;
    case Unscannable(error) =>
      cell.Write(cell.status.(filesScanned := cell.status.filesScanned + 1, error := Some(error)));
      goOn := true;
    case Scanned(f, allowance, stored) =>
      goOn := RecordFinding(cell, f, allowance, stored, singleFile);
  }

  method Complete(cell: StatusCell)
    requires cell.Valid() && cell.status.state == Running && cell.status.filesScanned == cell.status.totalFiles
    modifies cell
    ensures cell.Valid() && cell.status == old(cell.status).(state := Completed, currentPath := "")
  {
    cell.Write(cell.status.(state := Completed, currentPath := ""));
  }

  /** The worker's loop, up to the first answer that ends the scan. */
  method ScanTargets(cell: StatusCell, targets: seq<string>, answers: seq<Answer>) returns (n: nat, finished: bool)
    requires |answers| == |targets| && cell.Valid() && cell.status.state == Running
    requires cell.status.filesScanned == 0 && cell.status.totalFiles == |answers| && cell.status.findings == []
    modifies cell
    ensures cell.Valid() && cell.status.totalFiles == |answers| && n <= |answers|
    ensures forall k :: 0 <= k < n - 1 ==> Continues(answers[k])
    ensures if finished then n == |answers| && (n > 0 ==> Continues(answers[n - 1]))
                             && cell.status.state == Running && cell.status.filesScanned == n
            else n > 0 && !Continues(answers[n - 1]) && cell.status.state == EndState(answers[n - 1])
                 && cell.status.filesScanned == n - 1
    ensures cell.status.findings == Take(Notable(answers[..n]), MAXIMUM_FINDINGS)
  {
    assert Take(Notable(answers[..0]), MAXIMUM_FINDINGS) == [];
    hide Notable, Take, GoodHistory, Recordable, Recorded, Continues;
    for i := 0 to |answers|
      invariant cell.Valid() && cell.status.state == Running
      invariant cell.status.filesScanned == i && cell.status.totalFiles == |answers|
      invariant forall k :: 0 <= k < i ==> Continues(answers[k])
      invariant cell.status.findings == Take(Notable(answers[..i]), MAXIMUM_FINDINGS)
    {
      NotableNext(answers, i);
      var goOn := ScanTarget(cell, targets[i], answers[i], |targets| == 1);
      if !goOn {
        return i + 1, false;
      }
    }
    return |answers|, true;
  }

  /** The whole worker: it always ends in a terminal state, with the first 512 notable results of
      what it processed, completed exactly if every target was processed. */
  method RunWorker(cell: StatusCell, collected: Collected, answers: seq<Answer>)
    requires cell.Valid() && cell.status == Status(Running, None, [], 0, 0, "", None)
    requires collected.Targets? ==> |answers| == |collected.paths|
    modifies cell
    ensures cell.Valid() && Terminal(cell.status.state)
    ensures collected.Targets? && collected.paths != [] ==>
              && (cell.status.state.Completed? <==> forall i :: 0 <= i < |answers| ==> Continues(answers[i]))
              && cell.status.findings == Take(Notable(answers[..Consumed(answers)]), MAXIMUM_FINDINGS)
              && cell.status.totalFiles == |answers|
              && (!cell.status.state.Completed? ==>
                    Consumed(answers) > 0 && cell.status.state == EndState(answers[Consumed(answers) - 1])
                    && cell.status.filesScanned == Consumed(answers) - 1)
    ensures !(collected.Targets? && collected.paths != []) ==> !cell.status.state.Completed? && cell.status.findings == []
  {
    hide Notable, Take, GoodHistory, Continues, Consumed;
    var targets := CollectTargets(cell, collected);
    if targets.Some? {
      var n, finished := ScanTargets(cell, targets.value, answers);
      ConsumedIs(answers, n);
      if finished {
        Complete(cell);
      }
    }
  }

  lemma NotableNext(answers: seq<Answer>, i: nat)
    requires i < |answers|
    ensures var a := answers[i];
            Take(Notable(answers[..i + 1]), MAXIMUM_FINDINGS) ==
            Show(Take(Notable(answers[..i]), MAXIMUM_FINDINGS),
                 if Recordable(a) then Some(Recorded(a.finding, a.allowance)) else None)
  {
    hide Recordable, Recorded;
    assert answers[..i + 1][..i] == answers[..i];
  }

  lemma {:induction false} ConsumedIs(answers: seq<Answer>, n: nat)
    requires n <= |answers| && forall i :: 0 <= i < n - 1 ==> Continues(answers[i])
    requires if n == |answers| then true else n > 0 && !Continues(answers[n - 1])
    ensures Consumed(answers) == n
  {
    if answers != [] && Continues(answers[0]) {
      ConsumedIs(answers[1..], n - 1);
    }
  }

  // ---------- The job table ----------

  type Id = string

  datatype StartError = Busy | TokenUnavailable | SpawnFailed

  function Unfinished(jobs: map<Id, JobState>): set<Id> {
    set id | id in jobs && !Terminal(jobs[id])
  }

  function Finished(jobs: map<Id, JobState>): set<Id> {
    set id | id in jobs && Terminal(jobs[id])
  }

  /** The entries, the jobs whose worker is running, and what each start that made an entry returned. */
  datatype Table = Table(jobs: map<Id, JobState>, workers: set<Id>, outcomes: map<Id, Result<Id, StartError>>)

  const EMPTY := Table(map[], {}, map[])

  /** A start may prune first; only a worker can end a job. */
  datatype Step = Start(id: Id, tokenOk: bool, spawnOk: bool, pruned: set<Id>) | End(id: Id, state: JobState)

  /** Finished entries go, whichever come first, until fewer than 96 remain. */
  predicate LegalPrune(jobs: map<Id, JobState>, pruned: set<Id>) {
    if |jobs| < MAXIMUM_JOBS then pruned == {}
    else if |Unfinished(jobs)| < PRUNE_BELOW then pruned <= Finished(jobs) && |jobs - pruned| == PRUNE_BELOW - 1
    else pruned == Finished(jobs)
  }

  /** What a start returns. */
  function Outcome(t: Table, id: Id, tokenOk: bool, spawnOk: bool): Result<Id, StartError> {
    if |Unfinished(t.jobs)| >= MAXIMUM_JOBS then Err(Busy)
    else if !tokenOk then Err(TokenUnavailable)
    else if !spawnOk then Err(SpawnFailed)
    else Ok(id)
  }

  /** The entry comes before the worker, so a start that fails in between leaves it. */
  function Enter(t: Table, id: Id, r: Result<Id, StartError>): Table {
    if r == Err(Busy) then t
    else Table(t.jobs[id := Running], if r.Ok? then t.workers + {id} else t.workers, t.outcomes[id := r])
  }

  function Apply(t: Table, step: Step): Option<Table> {
    match step
    case Start(id, tokenOk, spawnOk, pruned) =>
      var r := Outcome(t, id, tokenOk, spawnOk);
      if id in t.jobs || id in t.outcomes || !LegalPrune(t.jobs, pruned) then None
      else Some(Enter(t.(jobs := t.jobs - pruned), id, r))
    case End(id, state) =>
      if id !in t.workers || !Terminal(state) then None
      else Some(t.(jobs := t.jobs[id := state], workers := t.workers - {id}))
  }

  function Run(steps: seq<Step>): Option<Table> {
    if steps == [] then Some(EMPTY)
    else match Run(steps[..|steps| - 1])
      case None => None
      case Some(t) => Apply(t, steps[|steps| - 1])
  }

  // ---------- Over whole runs ----------

  /** Entries whose start failed after the entry was made. */
  function Abandoned(t: Table): set<Id> {
    set id | id in t.outcomes && t.outcomes[id].Err?
  }

  ghost predicate Inv(t: Table) {
    |t.jobs| <= MAXIMUM_JOBS && forall id :: EntryOk(t, id)
  }

  ghost predicate EntryOk(t: Table, id: Id) {
    && (id in t.jobs ==> id in t.outcomes && (t.jobs[id] == Running || Terminal(t.jobs[id])))
    && (id in t.workers <==> id in t.jobs && t.jobs[id] == Running && t.outcomes[id].Ok?)
    && (id in t.outcomes && t.outcomes[id].Err? ==> id in t.jobs && t.jobs[id] == Running)
    && (id in t.outcomes && t.outcomes[id].Ok? ==> t.outcomes[id].value == id)
  }

  lemma JobsSplit(jobs: map<Id, JobState>)
    ensures |jobs| == |Unfinished(jobs)| + |Finished(jobs)|
  {
    assert jobs.Keys == Unfinished(jobs) + Finished(jobs);
    assert |jobs.Keys| == |jobs|;
  }

  /** The pruning loop: what is gone, and what it may still take. */
  ghost predicate Pruning(before: map<Id, JobState>, jobs: map<Id, JobState>, finished: set<Id>, pruned: set<Id>) {
    && jobs == before - pruned && pruned <= Finished(before) && finished == Finished(before) - pruned
    && |jobs| == |Unfinished(before)| + |finished| && |jobs| >= PRUNE_BELOW - 1
  }

  lemma PruningStarts(jobs: map<Id, JobState>)
    requires |jobs| >= MAXIMUM_JOBS
    ensures Pruning(jobs, jobs, Finished(jobs), {})
  {
    JobsSplit(jobs);
    assert jobs - {} == jobs;
  }

  lemma PruneOne(before: map<Id, JobState>, jobs: map<Id, JobState>, finished: set<Id>, pruned: set<Id>, id: Id)
    requires Pruning(before, jobs, finished, pruned) && id in finished && |jobs| >= PRUNE_BELOW
    ensures Pruning(before, jobs - {id}, finished - {id}, pruned + {id})
  {
    assert (jobs - {id}).Keys == jobs.Keys - {id};
    assert |jobs.Keys| == |jobs| && |(jobs - {id}).Keys| == |jobs - {id}|;
    assert jobs - {id} == before - (pruned + {id});
  }

  lemma PruneIsLegal(before: map<Id, JobState>, jobs: map<Id, JobState>, finished: set<Id>, pruned: set<Id>)
    requires |before| >= MAXIMUM_JOBS && Pruning(before, jobs, finished, pruned)
    requires finished == {} || |jobs| < PRUNE_BELOW
    ensures LegalPrune(before, pruned) && jobs == before - pruned
  {
    hide Unfinished;
    if finished == {} {
      assert pruned == Finished(before);
    } else {
      assert |finished| > 0;
    }
  }

  /** Pruning spares unfinished jobs and makes room unless 128 of them are held. */
  lemma PruneMakesRoom(jobs: map<Id, JobState>, pruned: set<Id>)
    requires |jobs| <= MAXIMUM_JOBS && LegalPrune(jobs, pruned)
    ensures Unfinished(jobs - pruned) == Unfinished(jobs) && |jobs - pruned| <= |jobs|
    ensures |jobs - pruned| < MAXIMUM_JOBS <==> |Unfinished(jobs)| < MAXIMUM_JOBS
  {
    JobsSplit(jobs);
    JobsSplit(jobs - pruned);
    assert Unfinished(jobs - pruned) == Unfinished(jobs);
    if pruned == Finished(jobs) {
      assert Finished(jobs - pruned) == {};
    }
    assert Finished(jobs - pruned) <= Finished(jobs);
    SubsetSize(Finished(jobs - pruned), Finished(jobs));
  }

  lemma StartKeeps(t: Table, step: Step)
    requires Inv(t) && step.Start? && Apply(t, step).Some?
    ensures Inv(Apply(t, step).value)
  {
    PruneMakesRoom(t.jobs, step.pruned);
    var u, left := Apply(t, step).value, t.jobs - step.pruned;
    assert |left[step.id := Running]| == |left| + 1;
    forall id ensures EntryOk(u, id) {
      StartKeepsEntry(t, step, id);
    }
    hide LegalPrune, EntryOk;
  }

  lemma StartKeepsEntry(t: Table, step: Step, id: Id)
    requires Inv(t) && step.Start? && Apply(t, step).Some?
    ensures EntryOk(Apply(t, step).value, id)
  {
    assert EntryOk(t, id);
    var left, r := t.(jobs := t.jobs - step.pruned), Outcome(t, step.id, step.tokenOk, step.spawnOk);
    assert EntryOk(left, id) by {
      assert step.pruned <= Finished(t.jobs);
    }
    assert r.Ok? ==> r.value == step.id;
    hide LegalPrune, Outcome, Unfinished;
    EnterKeepsEntry(left, step.id, r, id);
  }

  lemma EnterKeepsEntry(t: Table, started: Id, r: Result<Id, StartError>, id: Id)
    requires EntryOk(t, id) && started !in t.jobs && started !in t.outcomes && (r.Ok? ==> r.value == started)
    ensures EntryOk(Enter(t, started, r), id)
  {
  }

  lemma {:induction false} RunKeeps(steps: seq<Step>)
    requires Run(steps).Some?
    ensures Inv(Run(steps).value)
  {
    if steps != [] {
      var last := |steps| - 1;
      RunKeeps(steps[..last]);
      var t := Run(steps[..last]).value;
      if steps[last].Start? {
        StartKeeps(t, steps[last]);
      } else {
        EndKeeps(t, steps[last]);
      }
    }
  }

  lemma EndKeeps(t: Table, step: Step)
    requires Inv(t) && step.End? && Apply(t, step).Some?
    ensures Inv(Apply(t, step).value)
  {
    assert EntryOk(t, step.id);
    var u := Apply(t, step).value;
    assert u.jobs.Keys == t.jobs.Keys && |u.jobs.Keys| == |u.jobs| && |t.jobs.Keys| == |t.jobs|;
    forall id ensures EntryOk(u, id) {
      assert EntryOk(t, id);
    }
  }

  lemma {:induction false} OutcomesStay(steps: seq<Step>, more: seq<Step>, id: Id)
    requires Run(steps + more).Some?
    ensures Run(steps).Some?
    ensures id in Run(steps).value.outcomes ==>
              id in Run(steps + more).value.outcomes
              && Run(steps + more).value.outcomes[id] == Run(steps).value.outcomes[id]
  {
    if more == [] {
      assert steps + more == steps;
    } else {
      var last := |more| - 1;
      assert (steps + more)[..|steps + more| - 1] == steps + more[..last];
      OutcomesStay(steps, more[..last], id);
    }
  }

  lemma RunSnoc(steps: seq<Step>, step: Step)
    requires Run(steps).Some?
    ensures Run(steps + [step]) == Apply(Run(steps).value, step)
  {
    assert (steps + [step])[..|steps|] == steps;
  }

  lemma StartRuns(steps: seq<Step>, t: Table, step: Step, left: Table, r: Result<Id, StartError>)
    requires Run(steps) == Some(t) && Inv(t)
    requires step.Start? && step.id !in t.jobs && step.id !in t.outcomes && LegalPrune(t.jobs, step.pruned)
    requires left == t.(jobs := t.jobs - step.pruned)
    requires r == Admission(left, step.id, step.tokenOk, step.spawnOk)
    ensures r == Outcome(t, step.id, step.tokenOk, step.spawnOk)
    ensures Run(steps + [step]) == Some(Enter(left, step.id, r)) && Inv(Enter(left, step.id, r))
  {
    PruneMakesRoom(t.jobs, step.pruned);
    hide Run, Enter, LegalPrune, Unfinished, Inv;
    RunSnoc(steps, step);
    StartKeeps(t, step);
  }

  /** What the table after pruning leads to. */
  function Admission(left: Table, id: Id, tokenOk: bool, spawnOk: bool): Result<Id, StartError> {
    if |left.jobs| >= MAXIMUM_JOBS then Err(Busy)
    else if !tokenOk then Err(TokenUnavailable) else if !spawnOk then Err(SpawnFailed) else Ok(id)
  }

  /** An entry whose start failed is running in every later state: nothing ever ends or prunes it. */
  lemma FailedStartStays(steps: seq<Step>, more: seq<Step>, id: Id)
    requires Run(steps + more).Some?
    requires Run(steps).Some? && id in Run(steps).value.outcomes && Run(steps).value.outcomes[id].Err?
    ensures id in Run(steps + more).value.jobs && Run(steps + more).value.jobs[id] == Running
  {
    OutcomesStay(steps, more, id);
    RunKeeps(steps + more);
    hide Run;
    assert EntryOk(Run(steps + more).value, id);
  }

  ghost predicate Ended(steps: seq<Step>, id: Id) {
    Run(steps).Some? && id in Run(steps).value.jobs && Terminal(Run(steps).value.jobs[id])
  }

  /** An entry can ever become terminal if and only if its start succeeded. */
  lemma CanEndExact(steps: seq<Step>, id: Id)
    requires Run(steps).Some? && id in Run(steps).value.jobs
    ensures id in Run(steps).value.outcomes
    ensures (exists more :: Ended(steps + more, id)) <==> Run(steps).value.outcomes[id] == Ok(id)
  {
    RunKeeps(steps);
    hide Run;
    var t := Run(steps).value;
    assert EntryOk(t, id);
    if t.outcomes[id].Ok? {
      if t.jobs[id] == Running {
        RunSnoc(steps, End(id, Completed));
        assert Ended(steps + [End(id, Completed)], id);
      } else {
        assert steps + [] == steps;
        assert Ended(steps + [], id);
      }
    } else {
      forall more ensures !Ended(steps + more, id) {
        if Run(steps + more).Some? { FailedStartStays(steps, more, id); }
      }
    }
  }

  /** So failed starts use the table up: after 128 of them every start is refused, for good. */
  lemma ExhaustedForGood(steps: seq<Step>, more: seq<Step>, id: Id, tokenOk: bool, spawnOk: bool)
    requires Run(steps).Some? && |Abandoned(Run(steps).value)| >= MAXIMUM_JOBS && Run(steps + more).Some?
    ensures Outcome(Run(steps + more).value, id, tokenOk, spawnOk) == Err(Busy)
  {
    var t, u := Run(steps).value, Run(steps + more).value;
    RunKeeps(steps + more);
    forall x | x in Abandoned(t) ensures x in Unfinished(u.jobs) {
      FailedStartStays(steps, more, x);
    }
    SubsetSize(Abandoned(t), Unfinished(u.jobs));
  }

  /** ... and that state is reached by nothing but failed starts. */
  lemma {:induction false} FailedStartsExhaust(n: nat) returns (steps: seq<Step>)
    requires n <= MAXIMUM_JOBS
    ensures Run(steps).Some? && |Abandoned(Run(steps).value)| == n == |steps|
    ensures forall id :: id in Run(steps).value.outcomes ==> |id| < n
    ensures forall i :: 0 <= i < |steps| ==> steps[i].Start? && !steps[i].spawnOk
  {
    if n == 0 {
      steps := [];
      assert Abandoned(EMPTY) == {};
    } else {
      var before := FailedStartsExhaust(n - 1);
      RunKeeps(before);
      hide Run;
      var t := Run(before).value;
      var id := seq(n - 1, i => 'x');
      var step := Start(id, true, false, {});
      assert t.jobs.Keys == Abandoned(t) by {
        AllAbandoned(before);
      }
      assert |t.jobs| == |t.jobs.Keys| == n - 1;
      SubsetSize(Unfinished(t.jobs), t.jobs.Keys);
      RunSnoc(before, step);
      steps := before + [step];
      assert Abandoned(Run(steps).value) == Abandoned(t) + {id};
    }
  }

  lemma {:induction false} AllAbandoned(steps: seq<Step>)
    requires Run(steps).Some? && forall i :: 0 <= i < |steps| ==> steps[i].Start? && !steps[i].spawnOk
    ensures Run(steps).value.outcomes.Keys == Abandoned(Run(steps).value) == Run(steps).value.jobs.Keys
  {
    if steps != [] {
      AllAbandoned(steps[..|steps| - 1]);
    }
    RunKeeps(steps);
    var t := Run(steps).value;
    forall id ensures id in t.jobs ==> id in t.outcomes {
      assert EntryOk(t, id);
    }
    forall id | id in Abandoned(t) ensures id in t.jobs {
      assert EntryOk(t, id);
    }
  }

  // ---------- The table in place ----------

  class JobTable {
    var jobs: map<Id, JobState>
    ghost var workers: set<Id>
    ghost var outcomes: map<Id, Result<Id, StartError>>
    ghost var steps: seq<Step>

    ghost function View(): Table
      reads this
    {
      Table(jobs, workers, outcomes)
    }

    /** The table is what some run of starts, prunes and ending workers leaves. */
    ghost predicate Valid()
      reads this
    {
      Run(steps) == Some(View()) && Inv(View())
    }

    constructor ()
      ensures Valid() && View() == EMPTY && steps == []
    {
      jobs, workers, outcomes, steps := map[], {}, map[], [];
    }

    /** Removes finished jobs, visited in any order, until fewer than 96 jobs remain. */
    method PruneFinishedScans() returns (ghost pruned: set<Id>)
      requires |jobs| <= MAXIMUM_JOBS
      modifies this`jobs
      ensures LegalPrune(old(jobs), pruned) && jobs == old(jobs) - pruned
    {
      pruned := {};
      if |jobs| < MAXIMUM_JOBS {
        return;
      }
      hide Finished, Pruning, LegalPrune;
      var finished := Finished(jobs);
      ghost var before := jobs;
      PruningStarts(jobs);
      while finished != {}
        invariant Pruning(before, jobs, finished, pruned)
        decreases finished
      {
        if |jobs| < PRUNE_BELOW {
          break;
        }
        var id :| id in finished;
        PruneOne(before, jobs, finished, pruned, id);
        jobs, finished, pruned := jobs - {id}, finished - {id}, pruned + {id};
      }
      PruneIsLegal(before, jobs, finished, pruned);
    }

    /** Admits a job.  Its entry is made before its worker exists; an error afterwards leaves it there. */
    method StartScan(id: Id, tokenOk: bool, spawnOk: bool) returns (r: Result<Id, StartError>, ghost pruned: set<Id>)
      requires Valid() && id !in jobs && id !in outcomes
      modifies this
      ensures Valid() && steps == old(steps) + [Start(id, tokenOk, spawnOk, pruned)]
      ensures r == Outcome(old(View()), id, tokenOk, spawnOk)
    {
      ghost var before := View();
      pruned := PruneFinishedScans();
      hide Run, LegalPrune, Inv, Enter, Outcome, Admission;
      ghost var step := Start(id, tokenOk, spawnOk, pruned);
      ghost var left := View();
      assert left == before.(jobs := before.jobs - pruned);
      r := Admit(id, tokenOk, spawnOk);
      StartRuns(steps, before, step, left, r);
      steps := steps + [step];
    }

    method Admit(id: Id, tokenOk: bool, spawnOk: bool) returns (r: Result<Id, StartError>)
      modifies this`jobs, this`workers, this`outcomes
      ensures r == Admission(old(View()), id, tokenOk, spawnOk)
      ensures View() == Enter(old(View()), id, r)
    {
      if |jobs| >= MAXIMUM_JOBS {
        return Err(Busy);
      }
      jobs := jobs[id := Running];
      if !tokenOk {
        outcomes := outcomes[id := Err(TokenUnavailable)];
        return Err(TokenUnavailable);
      }
      if !spawnOk {
        outcomes := outcomes[id := Err(SpawnFailed)];
        return Err(SpawnFailed);
      }
      workers, outcomes := workers + {id}, outcomes[id := Ok(id)];
      r := Ok(id);
    }

    /** A worker ends its job. */
    method Finish(id: Id, state: JobState)
      requires Valid() && id in workers && Terminal(state)
      modifies this
      ensures Valid() && steps == old(steps) + [End(id, state)]
    {
      RunSnoc(steps, End(id, state));
      EndKeeps(View(), End(id, state));
      assert EntryOk(View(), id);
      hide Run;
      jobs, workers, steps := jobs[id := state], workers - {id}, steps + [End(id, state)];
    }
  }
}
