/**
 Temporary firewall blocks: a rule, its rollback record, an expiry thread per record, removal by
 the owner, and recovery after a restart.  The request thread, any number of expiry threads,
 crashes and failures interleave step by step.
 */
module TemporaryBlocks {
  import opened Common

  /** A rollback identifier; the rule is named after it, so it also names the rule. */
  type Id = nat

  datatype Record = Record(owner: string, expires: nat, restoredAt: Option<nat>)

  datatype Stage = Sleeping | Removing | Marking

  datatype Timer = Timer(owner: string, id: Id, wake: nat, stage: Stage)

  /** What the request thread is in the middle of. */
  datatype Job =
    | NoJob
    | Blocked(id: Id, owner: string, minutes: nat)
    | Expiring(id: Id, owner: string, minutes: nat, expires: nat)
    | Scheduling(id: Id, owner: string, minutes: nat)
    | Unblocking(id: Id, owner: string)
    | Unblocked(id: Id, owner: string)
    | Recovering(todo: set<Id>)

  datatype Actor = Expiry | Client(owner: string)

  datatype Removal = Removal(id: Id, actor: Actor, at: nat)

  /** Rules, records and the clock outlive a crash.  The last five fields are bookkeeping: issued
      identifiers, removals made, records restored, rules whose record was never written, and
      records whose cleanup failed somewhere. */
  datatype State = State(
    now: nat,
    rules: set<Id>,
    records: map<Id, Record>,
    up: bool,
    job: Job,
    timers: map<nat, Timer>,
    issued: set<Id>,
    removals: seq<Removal>,
    restores: seq<Id>,
    unrecorded: set<Id>,
    failed: set<Id>)

  const INITIAL := State(0, {}, map[], true, NoJob, map[], {}, [], [], {}, {})

  datatype Step =
    | Tick(seconds: nat)
    | AddRule(id: Id, owner: string, requested: Option<nat>, ok: bool, present: bool)
    | ComputeExpiry
    | WriteRecord(ok: bool)
    | Schedule(timer: nat, ok: bool)
    | ReadForUnblock(id: Id, owner: string)
    | RemoveForUnblock(ok: bool, gone: bool)
    | MarkUnblocked(ok: bool)
    | Wake(timer: nat, readOk: bool)
    | RemoveExpired(timer: nat, ok: bool, gone: bool)
    | MarkExpired(timer: nat, ok: bool)
    | Crash
    | Restart
    | Recover(id: Id, timer: nat, ok: bool)
    | RecoveryDone

  /** `duration_minutes.unwrap_or(15).clamp(1, 1_440)` */
  function Minutes(requested: Option<nat>): nat {
    match requested
    case None => 15
    case Some(m) => if m < 1 then 1 else if m > 1_440 then 1_440 else m
  }

  predicate Active(s: State, id: Id, owner: string) {
    id in s.records && s.records[id].owner == owner && s.records[id].restoredAt.None?
  }

  /** The guarded update: only an unrestored record of that owner is marked. */
  function Mark(s: State, id: Id, owner: string): State {
    if Active(s, id, owner) then
      s.(records := s.records[id := s.records[id].(restoredAt := Some(s.now))], restores := s.restores + [id])
    else s
  }

  /** A failed removal may still have removed the rule. */
  function Remove(s: State, id: Id, actor: Actor, gone: bool): State {
    if gone then s.(rules := s.rules - {id}, removals := s.removals + [Removal(id, actor, s.now)]) else s
  }

  function Spawn(s: State, timer: nat, t: Timer, ok: bool): State {
    if ok then s.(timers := s.timers[timer := t]) else s.(failed := s.failed + {t.id})
  }

  function Finish(s: State, timer: nat, fault: bool): State
    requires timer in s.timers
  {
    s.(timers := s.timers - {timer}, failed := if fault then s.failed + {s.timers[timer].id} else s.failed)
  }

  function ActiveIds(s: State): set<Id> {
    set id | id in s.records && s.records[id].restoredAt.None?
  }

  predicate IsRequest(step: Step) {
    step.AddRule? || step.ComputeExpiry? || step.WriteRecord? || step.Schedule? || step.ReadForUnblock?
    || step.RemoveForUnblock? || step.MarkUnblocked?
  }

  predicate IsTimer(step: Step) {
    step.Wake? || step.RemoveExpired? || step.MarkExpired?
  }

  function Apply(s: State, step: Step): Option<State> {
    if IsRequest(step) then ApplyRequest(s, step)
    else if IsTimer(step) then ApplyTimer(s, step)
    else ApplyControl(s, step)
  }

  /** The clock, crashes and recovery. */
  function ApplyControl(s: State, step: Step): Option<State> {
    match step
    case Tick(seconds) => Some(s.(now := s.now + seconds))
    case Crash =>
      Some(s.(up := false, timers := map[], job := NoJob,
              unrecorded := if s.job.Blocked? || s.job.Expiring? then s.unrecorded + {s.job.id} else s.unrecorded))
    case Restart => if s.up then None else Some(s.(up := true, job := Recovering(ActiveIds(s))))
    case Recover(id, timer, ok) =>
      if !s.job.Recovering? || id !in s.job.todo || timer in s.timers || id !in s.records then None
      else
        var r := s.records[id];
        // `expires.saturating_sub(now)` seconds from now
        Some(Spawn(s.(job := Recovering(s.job.todo - {id})), timer,
                   Timer(r.owner, id, if r.expires <= s.now then s.now else r.expires, Sleeping), ok))
    case RecoveryDone => if s.job == Recovering({}) then Some(s.(job := NoJob)) else None
    case _ => None
  }

  /** The expiry threads. */
  function ApplyTimer(s: State, step: Step): Option<State> {
    match step
    case Wake(timer, readOk) =>
      if timer !in s.timers || s.timers[timer].stage != Sleeping || s.now < s.timers[timer].wake then None
      else if readOk && Active(s, s.timers[timer].id, s.timers[timer].owner)
      then Some(s.(timers := s.timers[timer := s.timers[timer].(stage := Removing)]))
      else Some(Finish(s, timer, !readOk))
    case RemoveExpired(timer, ok, gone) =>
      if timer !in s.timers || s.timers[timer].stage != Removing || (ok && !gone) then None
      else
        var r := Remove(s, s.timers[timer].id, Expiry, gone);
        if ok then Some(r.(timers := r.timers[timer := r.timers[timer].(stage := Marking)]))
        else Some(Finish(r, timer, true))
    case MarkExpired(timer, ok) =>
      if timer !in s.timers || s.timers[timer].stage != Marking then None
      else
        var m := if ok then Mark(s, s.timers[timer].id, s.timers[timer].owner) else s;
        Some(Finish(m, timer, !ok))
    case _ => None
  }

  /** The request thread: block and unblock. */
  function ApplyRequest(s: State, step: Step): Option<State> {
    match step
    case AddRule(id, owner, requested, ok, present) =>
      if !s.up || s.job != NoJob || id in s.issued || (ok && !present) then None
      else
        var t := s.(issued := s.issued + {id}, rules := if present then s.rules + {id} else s.rules);
        if ok then Some(t.(job := Blocked(id, owner, Minutes(requested))))
        else Some(t.(unrecorded := t.unrecorded + {id}))
    case ComputeExpiry =>
      if !s.job.Blocked? then None
      else Some(s.(job := Expiring(s.job.id, s.job.owner, s.job.minutes, s.now + s.job.minutes * 60)))
    case WriteRecord(ok) =>
      if !s.job.Expiring? then None
      else if !ok then Some(s.(job := NoJob, unrecorded := s.unrecorded + {s.job.id}))
      else Some(s.(records := s.records[s.job.id := Record(s.job.owner, s.job.expires, None)],
                   job := Scheduling(s.job.id, s.job.owner, s.job.minutes)))
    case Schedule(timer, ok) =>
      if !s.job.Scheduling? || timer in s.timers then None
      else Some(Spawn(s.(job := NoJob), timer,
                      Timer(s.job.owner, s.job.id, s.now + s.job.minutes * 60, Sleeping), ok))
    case ReadForUnblock(id, owner) =>
      if !s.up || s.job != NoJob || !Active(s, id, owner) then None else Some(s.(job := Unblocking(id, owner)))
    case RemoveForUnblock(ok, gone) =>
      if !s.job.Unblocking? || (ok && !gone) then None
      else
        var r := Remove(s, s.job.id, Client(s.job.owner), gone);
        Some(r.(job := if ok then Unblocked(s.job.id, s.job.owner) else NoJob))
    case MarkUnblocked(ok) =>
      if !s.job.Unblocked? then None
      else Some((if ok then Mark(s, s.job.id, s.job.owner) else s).(job := NoJob))
    case _ => None
  }

  function Run(steps: seq<Step>): Option<State> {
    if steps == [] then Some(INITIAL)
    else match Run(steps[..|steps| - 1])
      case None => None
      case Some(s) => Apply(s, steps[|steps| - 1])
  }

  // ---------- Invariants ----------

  ghost predicate Issued(s: State) {
    && s.rules <= s.issued && s.records.Keys <= s.issued && s.unrecorded <= s.issued
    && s.unrecorded !! s.records.Keys
    && (s.job.Blocked? || s.job.Expiring? ==> s.job.id in s.issued && s.job.id !in s.records && s.job.id !in s.unrecorded)
  }

  /** A restored record's rule is gone; so is the rule of a removal about to be recorded. */
  ghost predicate Clean(s: State) {
    && (forall id :: id in s.records && s.records[id].restoredAt.Some? ==> id !in s.rules)
    && (s.job.Unblocked? ==> s.job.id in s.records && s.job.id !in s.rules)
    && (forall k :: k in s.timers && s.timers[k].stage == Marking ==> s.timers[k].id !in s.rules)
  }

  /** Timers sleep at least until the recorded expiry. */
  ghost predicate TimerPatient(s: State, t: Timer) {
    && t.id in s.records && t.owner == s.records[t.id].owner && s.records[t.id].expires <= t.wake
    && (t.stage != Sleeping ==> t.wake <= s.now)
  }

  ghost predicate Patient(s: State) {
    JobPatient(s) && forall k :: k in s.timers ==> TimerPatient(s, s.timers[k])
  }

  ghost predicate JobPatient(s: State) {
    && (s.job.Expiring? ==> s.job.expires <= s.now + s.job.minutes * 60)
    && (s.job.Scheduling? ==>
          s.job.id in s.records && s.records[s.job.id].owner == s.job.owner
          && s.records[s.job.id].expires <= s.now + s.job.minutes * 60)
    && (s.job.Unblocking? || s.job.Unblocked? ==> s.job.id in s.records && s.records[s.job.id].owner == s.job.owner)
    && (s.job.Recovering? ==> s.job.todo <= s.records.Keys)
  }

  /** Expiry never removes early, and a client only ever removes its own block. */
  ghost predicate Lawful(s: State) {
    forall i :: 0 <= i < |s.removals| ==>
      var m := s.removals[i];
      m.id in s.records && match m.actor
                           case Expiry => s.records[m.id].expires <= m.at
                           case Client(owner) => s.records[m.id].owner == owner
  }

  ghost predicate RestoredOnce(s: State) {
    && Distinct(s.restores)
    && forall id :: id in s.restores <==> id in s.records && s.records[id].restoredAt.Some?
  }

  ghost predicate HasTimer(s: State, id: Id) {
    exists k :: k in s.timers && s.timers[k].id == id
  }

  ghost predicate Pending(s: State, id: Id) {
    HasTimer(s, id) || (s.job.Scheduling? && s.job.id == id) || (s.job.Recovering? && id in s.job.todo)
  }

  /** While the service runs, every active record has cleanup under way, or a cleanup step failed. */
  ghost predicate Covered(s: State) {
    s.up ==> forall id :: id in s.records && s.records[id].restoredAt.None? ==> id in s.failed || Pending(s, id)
  }

  /** A rule without a record is one whose block was cut short. */
  ghost predicate Recorded(s: State) {
    forall id :: id in s.rules && id !in s.records ==>
      id in s.unrecorded || ((s.job.Blocked? || s.job.Expiring?) && s.job.id == id)
  }

  ghost predicate Down(s: State) {
    !s.up ==> s.job == NoJob && s.timers == map[]
  }

  ghost predicate Inv(s: State) {
    Issued(s) && Clean(s) && Patient(s) && Lawful(s) && RestoredOnce(s) && Covered(s) && Recorded(s) && Down(s)
  }

  // ---------- Every step keeps them ----------

  lemma IssuedInRequest(s: State, step: Step)
    requires Issued(s) && ApplyRequest(s, step).Some?
    ensures Issued(ApplyRequest(s, step).value)
  {
  }

  lemma IssuedInTimer(s: State, step: Step)
    requires Issued(s) && ApplyTimer(s, step).Some?
    ensures Issued(ApplyTimer(s, step).value)
  {
  }

  lemma IssuedInControl(s: State, step: Step)
    requires Issued(s) && ApplyControl(s, step).Some?
    ensures Issued(ApplyControl(s, step).value)
  {
  }

  lemma IssuedKept(s: State, step: Step)
    requires Issued(s) && Apply(s, step).Some?
    ensures Issued(Apply(s, step).value)
  {
    hide ApplyRequest, ApplyTimer, ApplyControl, Issued;
    if IsRequest(step) { IssuedInRequest(s, step); }
    else if IsTimer(step) { IssuedInTimer(s, step); }
    else { IssuedInControl(s, step); }
  }

  lemma CleanInRequest(s: State, step: Step)
    requires Clean(s) && Issued(s) && Patient(s) && ApplyRequest(s, step).Some?
    ensures Clean(ApplyRequest(s, step).value)
  {
  }

  lemma CleanInTimer(s: State, step: Step)
    requires Clean(s) && Issued(s) && Patient(s) && ApplyTimer(s, step).Some?
    ensures Clean(ApplyTimer(s, step).value)
  {
  }

  lemma CleanInControl(s: State, step: Step)
    requires Clean(s) && Issued(s) && Patient(s) && ApplyControl(s, step).Some?
    ensures Clean(ApplyControl(s, step).value)
  {
  }

  lemma CleanKept(s: State, step: Step)
    requires Clean(s) && Issued(s) && Patient(s) && Apply(s, step).Some?
    ensures Clean(Apply(s, step).value)
  {
    hide ApplyRequest, ApplyTimer, ApplyControl, Clean, Issued, Patient;
    if IsRequest(step) { CleanInRequest(s, step); }
    else if IsTimer(step) { CleanInTimer(s, step); }
    else { CleanInControl(s, step); }
  }

  lemma JobPatientInRequest(s: State, step: Step)
    requires Patient(s) && Issued(s) && ApplyRequest(s, step).Some?
    ensures JobPatient(ApplyRequest(s, step).value)
  {
  }

  lemma TimersPatientInRequest(s: State, step: Step, k: nat)
    requires Patient(s) && Issued(s) && ApplyRequest(s, step).Some? && k in ApplyRequest(s, step).value.timers
    ensures TimerPatient(ApplyRequest(s, step).value, ApplyRequest(s, step).value.timers[k])
  {
  }

  lemma PatientInRequest(s: State, step: Step)
    requires Patient(s) && Issued(s) && Clean(s) && ApplyRequest(s, step).Some?
    ensures Patient(ApplyRequest(s, step).value)
  {
    hide ApplyRequest, JobPatient, TimerPatient;
    JobPatientInRequest(s, step);
    var t := ApplyRequest(s, step).value;
    forall k | k in t.timers ensures TimerPatient(t, t.timers[k]) {
      TimersPatientInRequest(s, step, k);
    }
  }

  lemma JobPatientInTimer(s: State, step: Step)
    requires Patient(s) && Issued(s) && ApplyTimer(s, step).Some?
    ensures JobPatient(ApplyTimer(s, step).value)
  {
  }

  lemma TimersPatientInTimer(s: State, step: Step, k: nat)
    requires Patient(s) && Issued(s) && ApplyTimer(s, step).Some? && k in ApplyTimer(s, step).value.timers
    ensures TimerPatient(ApplyTimer(s, step).value, ApplyTimer(s, step).value.timers[k])
  {
  }

  lemma PatientInTimer(s: State, step: Step)
    requires Patient(s) && Issued(s) && Clean(s) && ApplyTimer(s, step).Some?
    ensures Patient(ApplyTimer(s, step).value)
  {
    hide ApplyTimer, JobPatient, TimerPatient;
    JobPatientInTimer(s, step);
    var t := ApplyTimer(s, step).value;
    forall k | k in t.timers ensures TimerPatient(t, t.timers[k]) {
      TimersPatientInTimer(s, step, k);
    }
  }

  lemma PatientInControl(s: State, step: Step)
    requires Patient(s) && Issued(s) && Clean(s) && ApplyControl(s, step).Some?
    ensures Patient(ApplyControl(s, step).value)
  {
  }

  lemma PatientKept(s: State, step: Step)
    requires Patient(s) && Issued(s) && Clean(s) && Apply(s, step).Some?
    ensures Patient(Apply(s, step).value)
  {
    hide ApplyRequest, ApplyTimer, ApplyControl, Patient, Issued, Clean;
    if IsRequest(step) { PatientInRequest(s, step); }
    else if IsTimer(step) { PatientInTimer(s, step); }
    else { PatientInControl(s, step); }
  }

  lemma LawfulInRequest(s: State, step: Step)
    requires Lawful(s) && Patient(s) && Issued(s) && ApplyRequest(s, step).Some?
    ensures Lawful(ApplyRequest(s, step).value)
  {
  }

  lemma LawfulInTimer(s: State, step: Step)
    requires Lawful(s) && Patient(s) && Issued(s) && ApplyTimer(s, step).Some?
    ensures Lawful(ApplyTimer(s, step).value)
  {
  }

  lemma LawfulInControl(s: State, step: Step)
    requires Lawful(s) && Patient(s) && Issued(s) && ApplyControl(s, step).Some?
    ensures Lawful(ApplyControl(s, step).value)
  {
  }

  lemma LawfulKept(s: State, step: Step)
    requires Lawful(s) && Patient(s) && Issued(s) && Apply(s, step).Some?
    ensures Lawful(Apply(s, step).value)
  {
    hide ApplyRequest, ApplyTimer, ApplyControl, Lawful, Patient, Issued;
    if IsRequest(step) { LawfulInRequest(s, step); }
    else if IsTimer(step) { LawfulInTimer(s, step); }
    else { LawfulInControl(s, step); }
  }

  lemma RestoredOnceInRequest(s: State, step: Step)
    requires RestoredOnce(s) && Issued(s) && ApplyRequest(s, step).Some?
    ensures RestoredOnce(ApplyRequest(s, step).value)
  {
  }

  lemma RestoredOnceInTimer(s: State, step: Step)
    requires RestoredOnce(s) && Issued(s) && ApplyTimer(s, step).Some?
    ensures RestoredOnce(ApplyTimer(s, step).value)
  {
  }

  lemma RestoredOnceInControl(s: State, step: Step)
    requires RestoredOnce(s) && Issued(s) && ApplyControl(s, step).Some?
    ensures RestoredOnce(ApplyControl(s, step).value)
  {
  }

  lemma RestoredOnceKept(s: State, step: Step)
    requires RestoredOnce(s) && Issued(s) && Apply(s, step).Some?
    ensures RestoredOnce(Apply(s, step).value)
  {
    hide ApplyRequest, ApplyTimer, ApplyControl, RestoredOnce, Issued;
    if IsRequest(step) { RestoredOnceInRequest(s, step); }
    else if IsTimer(step) { RestoredOnceInTimer(s, step); }
    else { RestoredOnceInControl(s, step); }
  }

  /** A step that leaves other timers alone and does not unmark `id` keeps its cleanup pending. */
  lemma TimerStays(s: State, t: State, id: Id, k: nat)
    requires k in s.timers && s.timers[k].id == id && k in t.timers && t.timers[k].id == id
    ensures HasTimer(t, id)
  {
  }

  lemma CoveredAt(s: State, step: Step, id: Id)
    requires Covered(s) && Patient(s) && Down(s) && Apply(s, step).Some?
    requires var t := Apply(s, step).value; t.up && id in t.records && t.records[id].restoredAt.None?
    ensures var t := Apply(s, step).value; id in t.failed || Pending(t, id)
  {
    var t := Apply(s, step).value;
    if id !in t.failed {
      match step
      case Schedule(timer, ok) =>
        if s.job.id == id { assert t.timers[timer].id == id; }
        else { PendingStays(s, t, id); }
      case Recover(other, timer, ok) =>
        if other == id { assert t.timers[timer].id == id; }
        else { PendingStays(s, t, id); }
      case Restart =>
      case WriteRecord(ok) =>
        if !(ok && s.job.id == id) { PendingStays(s, t, id); }
      case _ => PendingStays(s, t, id);
    }
  }

  lemma PendingStays(s: State, t: State, id: Id)
    requires id in s.failed || Pending(s, id)
    requires s.failed <= t.failed
    requires s.job.Scheduling? && s.job.id == id ==> t.job == s.job
    requires s.job.Recovering? && id in s.job.todo ==> t.job.Recovering? && id in t.job.todo
    requires forall k :: k in s.timers && s.timers[k].id == id ==> k in t.timers && t.timers[k].id == id
    ensures id in t.failed || Pending(t, id)
  {
    if HasTimer(s, id) {
      var k :| k in s.timers && s.timers[k].id == id;
      TimerStays(s, t, id, k);
    }
  }

  lemma CoveredKept(s: State, step: Step)
    requires Covered(s) && Patient(s) && Issued(s) && Down(s) && Apply(s, step).Some?
    ensures Covered(Apply(s, step).value)
  {
    hide Apply, Patient, Issued, Down, Pending;
    var t := Apply(s, step).value;
    forall id | t.up && id in t.records && t.records[id].restoredAt.None? ensures id in t.failed || Pending(t, id) {
      assert Covered(s);
      CoveredAt(s, step, id);
    }
  }

  lemma RecordedKept(s: State, step: Step)
    requires Recorded(s) && Issued(s) && Down(s) && Apply(s, step).Some?
    ensures Recorded(Apply(s, step).value)
  {
  }

  lemma DownKept(s: State, step: Step)
    requires Down(s) && Apply(s, step).Some?
    ensures Down(Apply(s, step).value)
  {
  }

  lemma StepKeeps(s: State, step: Step)
    requires Inv(s) && Apply(s, step).Some?
    ensures Inv(Apply(s, step).value)
  {
    hide Apply, Issued, Clean, Patient, Lawful, RestoredOnce, Covered, Recorded, Down;
    IssuedKept(s, step);
    CleanKept(s, step);
    PatientKept(s, step);
    LawfulKept(s, step);
    RestoredOnceKept(s, step);
    CoveredKept(s, step);
    RecordedKept(s, step);
    DownKept(s, step);
  }

  lemma InitialInv()
    ensures Inv(INITIAL)
  {
  }

  lemma {:induction false} RunKeeps(steps: seq<Step>)
    requires Run(steps).Some?
    ensures Inv(Run(steps).value)
  {
    hide Inv, Apply;
    if steps == [] {
      InitialInv();
    } else {
      RunKeeps(steps[..|steps| - 1]);
      StepKeeps(Run(steps[..|steps| - 1]).value, steps[|steps| - 1]);
    }
  }

  // ---------- What the service promises ----------

  /** In every interleaving: a restored record's rule is gone, each record was restored at most
      once, expiry removed nothing early, and clients removed only their own blocks. */
  lemma BlocksAreSafe(steps: seq<Step>, s: State)
    requires Run(steps) == Some(s)
    ensures forall id :: id in s.records && s.records[id].restoredAt.Some? ==> id !in s.rules
    ensures RestoredOnce(s)
    ensures Lawful(s)
  {
    RunKeeps(steps);
  }

  /** While the service is up an active record always has its cleanup pending, unless some cleanup
      step for it failed. */
  lemma CleanupIsPending(steps: seq<Step>, s: State, id: Id)
    requires Run(steps) == Some(s) && s.up && id in s.records && s.records[id].restoredAt.None? && id !in s.failed
    ensures Pending(s, id)
  {
    hide Pending, Run;
    RunKeeps(steps);
    assert Covered(s);
  }

  /** A rule outlives its chance of cleanup only when its block was cut short before the record. */
  lemma UnrecordedRules(steps: seq<Step>, s: State, id: Id)
    requires Run(steps) == Some(s) && id in s.rules && id !in s.records && s.job == NoJob
    ensures id in s.unrecorded
  {
    hide Run;
    RunKeeps(steps);
    assert Recorded(s);
  }

  ghost predicate Extends(s: State, t: State) {
    && s.now <= t.now && s.restores <= t.restores && s.removals <= t.removals && s.issued <= t.issued
    && forall id :: id in s.records ==>
         && id in t.records && t.records[id].owner == s.records[id].owner && t.records[id].expires == s.records[id].expires
         && (s.records[id].restoredAt.Some? ==> t.records[id] == s.records[id])
  }

  lemma StepExtends(s: State, step: Step)
    requires Issued(s) && Apply(s, step).Some?
    ensures Extends(s, Apply(s, step).value)
  {
  }

  lemma ExtendsTransitive(s: State, t: State, u: State)
    requires Extends(s, t) && Extends(t, u)
    ensures Extends(s, u)
  {
    forall id | id in s.records ensures id in t.records && id in u.records { }
  }

  /** Records are never lost or rewritten, and a restored record stays restored at the same time. */
  lemma {:induction false} HistoryIsFinal(steps: seq<Step>, more: seq<Step>, s: State, t: State)
    requires Run(steps) == Some(s) && Run(steps + more) == Some(t)
    ensures Extends(s, t)
  {
    hide Extends, Apply, Inv;
    if more == [] {
      assert steps + more == steps;
      ExtendsItself(s);
    } else {
      var n := |more| - 1;
      var before := (steps + more)[..|steps + more| - 1];
      assert before == steps + more[..n];
      var mid := Run(before).value;
      HistoryIsFinal(steps, more[..n], s, mid);
      RunKeeps(before);
      assert Issued(mid) by { InvIssued(mid); }
      StepExtends(mid, more[n]);
      ExtendsTransitive(s, mid, t);
    }
  }

  lemma ExtendsItself(s: State)
    ensures Extends(s, s)
  {
  }

  lemma InvIssued(s: State)
    requires Inv(s)
    ensures Issued(s)
  {
  }
}
