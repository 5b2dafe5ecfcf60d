/**
 What one step can do to one record. Every later argument about single Works goes through this short list of effects
 instead of through the actions.
 */
module Effects {
  import opened Basics
  import opened StoreModel
  import opened ResourceModel
  import opened Selection
  import opened RecordInvariant
  import opened System
  import opened Invariant

  datatype Effect =
    | Same
    | BeginEffect(engine: Bytes, model: Bytes)
    | SucceedEffect
    | WithdrawEffect
    | FailEffect(state: AttemptState, text: Diagnosis)
    | RecoverEffect
    | ExpireEffect(now: int)
    | RejectEffect(text: Diagnosis)
    | CancelEffect
    | AcknowledgeEffect

  /** The record after the effect, at the clock of the step. */
  function Apply(r: Record, e: Effect, clock: int): Record {
    match e
    case Same => r
    case BeginEffect(engine, model) => BeginRecord(r, engine, model, clock)
    case SucceedEffect => SucceedRecord(r, r.work.attemptCount, clock)
    case WithdrawEffect => CancelRunningRecord(r, r.work.attemptCount, clock)
    case FailEffect(state, text) => FailRecord(r, r.work.attemptCount, state, text, clock)
    case RecoverEffect => RecoverRecord(r, clock)
    case ExpireEffect(now) => ExpireRecord(r, now)
    case RejectEffect(text) => RejectRecord(r, text)
    case CancelEffect => CancelRecord(r)
    case AcknowledgeEffect => r.(work := r.work.(acknowledged := true))
  }

  /** Who causes the effect, and in which situation. */
  predicate Cause(s: Sys, a: Action, id: WorkId, e: Effect)
    requires id in s.db.records
  {
    match e
    case Same => true
    case BeginEffect(engine, model) =>
      && a.SchedBegin? && s.sched.Admitted? && s.sched.work.id == id
      && s.sched.engine.id == engine && s.sched.model == model
      && Startable(s.db.records[id]) && !DeadlineReached(s.sched.work.request, s.clock)
    case SucceedEffect => a.TaskSettle? && Owns(s.tasks, a.task, id) && s.tasks[a.task].phase.Written?
    case WithdrawEffect => a.TaskSettle? && Owns(s.tasks, a.task, id)
    case FailEffect(state, text) =>
      && (state.Faulted? || state.TimedOut?)
      && s.db.records[id].work.state.Running?
      && (a.TaskSettle? || a.SchedLaunch?)
    case RecoverEffect => a.Start?
    case ExpireEffect(now) => a.SchedSweep?
    case RejectEffect(text) => a.SchedAdmit? || a.SchedBegin?
    case CancelEffect => a.CancelWork?
    case AcknowledgeEffect => a.AcknowledgeWork? && a.id == id && AcknowledgeSucceeds(s, id)
  }

  ghost predicate Explains(s: Sys, a: Action, id: WorkId, t: Sys, e: Effect)
    requires id in s.db.records
  {
    id in t.db.records && t.db.records[id] == Apply(s.db.records[id], e, s.clock) && Cause(s, a, id, e)
  }

  /** The step changes one record at most, by the given effect. */
  ghost predicate Touches(s: Sys, a: Action, t: Sys, target: WorkId, e: Effect) {
    if e.Same? then t.db == s.db
    else
      && target in s.db.records
      && t.db == Put(s.db, target, Apply(s.db.records[target], e, s.clock))
      && Cause(s, a, target, e)
  }

  lemma {:induction false} CancelCase(s: Sys, id: WorkId) returns (e: Effect)
    ensures Touches(s, CancelWork(id), DoCancelWork(s, id), id, e)
  {
    hide CancelRecord;
    e := if s.up && s.client.Ready? && id in s.db.records then CancelEffect else Same;
  }

  lemma {:induction false} AcknowledgeCase(s: Sys, id: WorkId) returns (e: Effect)
    ensures Touches(s, AcknowledgeWork(id), DoAcknowledge(s, id), id, e)
  {
    e := if AcknowledgeSucceeds(s, id) then AcknowledgeEffect else Same;
  }

  lemma {:induction false} AdmitCase(s: Sys) returns (target: WorkId, e: Effect)
    requires SchedOk(s.sched, s.db, s.tasks, s.inventory)
    ensures Touches(s, SchedAdmit, DoAdmit(s), target, e)
  {
    target, e := "", Same;
    if s.sched.Picked? {
      target := s.sched.work.id;
      assert target in s.db.records;
      hide SchedOk;
      e := AdmitEffect(s);
    }
  }

  lemma {:induction false} AdmitEffect(s: Sys) returns (e: Effect)
    requires s.sched.Picked? && s.sched.work.id in s.db.records
    ensures Touches(s, SchedAdmit, DoAdmit(s), s.sched.work.id, e)
  {
    var text := AdmitsDb(s);
    hide DoAdmit, RejectRecord;
    e := match text case None => Same case Some(t) => RejectEffect(t);
  }

  /** Admission rejects the picked Work, with a reason, or leaves the table alone. */
  lemma {:induction false} AdmitsDb(s: Sys) returns (text: Option<Diagnosis>)
    requires s.sched.Picked?
    ensures DoAdmit(s).db == match text case None => s.db case Some(t) => Reject(s.db, s.sched.work.id, t)
  {
    hide Select, AfterReserve, Decide, CanEverReserve, Reject, DeadlineReached;
    text := None;
    if DeadlineReached(s.sched.work.request, s.sched.now) {
      text := Some(DeadlineBeforeDispatch);
    } else {
      match Select(s.sched.work.request, s.inventory)
      case NoMatch(stage) => text := Some(Unmatched(stage));
      case Chosen(engine, model) =>
        if !CanEverReserve(s.capacity, engine.resources) {
          text := Some(InsufficientCapacity);
        }
    }
  }

  lemma {:induction false} BeginCase(s: Sys) returns (target: WorkId, e: Effect)
    requires SchedOk(s.sched, s.db, s.tasks, s.inventory)
    ensures Touches(s, SchedBegin, DoBegin(s), target, e)
  {
    target, e := "", Same;
    if s.sched.Admitted? {
      target := s.sched.work.id;
      assert target in s.db.records;
      hide SchedOk;
      e := BeginsEffect(s);
    }
  }

  lemma {:induction false} BeginsEffect(s: Sys) returns (e: Effect)
    requires s.sched.Admitted? && s.sched.work.id in s.db.records
    ensures Touches(s, SchedBegin, DoBegin(s), s.sched.work.id, e)
  {
    BeginsDb(s);
    hide DoBegin, RejectRecord, BeginRecord, DeadlineReached;
    e := Same;
    if DeadlineReached(s.sched.work.request, s.clock) {
      e := RejectEffect(DeadlineBeforeDispatch);
    } else if BeginResult(s.db, s.sched.work.id).Began? {
      e := BeginEffect(s.sched.engine.id, s.sched.model);
    }
  }

  lemma {:induction false} BeginsDb(s: Sys)
    requires s.sched.Admitted?
    ensures DoBegin(s).db ==
              if DeadlineReached(s.sched.work.request, s.clock) then Reject(s.db, s.sched.work.id, DeadlineBeforeDispatch)
              else BeginAttempt(s.db, s.sched.work.id, s.sched.engine.id, s.sched.model, s.clock)
  {
    CrashKeepsDb(s);
    hide DoCrash, Reject, BeginRecord, BeginResult, DeadlineReached, Put;
    if !DeadlineReached(s.sched.work.request, s.clock) {
      match BeginResult(s.db, s.sched.work.id)
      case Began(n) =>
      case Lost =>
      case KeyConflict =>
    }
  }

  lemma {:induction false} CrashKeepsDb(s: Sys)
    ensures DoCrash(s).db == s.db
  {
  }

  lemma {:induction false} LaunchCase(s: Sys, ok: bool, why: Bytes) returns (target: WorkId, e: Effect)
    requires SchedOk(s.sched, s.db, s.tasks, s.inventory)
    ensures Touches(s, SchedLaunch(ok, why), DoLaunch(s, ok, why), target, e)
  {
    target, e := "", Same;
    if s.sched.Begun? {
      target := s.sched.work.id;
      assert Carries(s.db, Task(s.sched.work, s.sched.attempt, s.sched.startedAt, Launched));
      hide SchedOk, FailRecord;
      if !ok {
        e := FailEffect(Faulted, LaunchFailure(why));
      }
    }
  }

  /** The effect by which an executor ends its attempt. */
  function SettleEffect(s: Sys, t: Task): Effect {
    match t.phase
    case Decided(CancelSeen) => WithdrawEffect
    case Decided(StopTimeReached) => FailEffect(TimedOut, StopText(t))
    case Decided(WorkerFailed(text)) => FailEffect(Faulted, WorkerReport(text))
    case Withdrawing => WithdrawEffect
    case Written(_) => SucceedEffect
    case Raised(text) => if s.stop then Same else FailEffect(Faulted, ExecutionFailure(text))
    case _ => Same
  }

  lemma {:induction false} SettleEffectIs(s: Sys, t: Task)
    requires Carries(s.db, t)
    ensures var id, e := t.work.id, SettleEffect(s, t);
            SettleDb(s, t) == if e.Same? then s.db else Put(s.db, id, Apply(s.db.records[id], e, s.clock))
  {
    hide FailRecord, SucceedRecord, CancelRunningRecord, StopText;
  }

  lemma {:induction false} SettleEnds(s: Sys, k: nat)
    requires k in s.tasks && !s.tasks[k].phase.Settled?
    ensures SettleEffect(s, s.tasks[k]).Same? ==> SettleDb(s, s.tasks[k]) == s.db
    ensures DoSettle(s, k).db == SettleDb(s, s.tasks[k])
  {
    hide FinishFailure, FinishSuccess, FinishCancelled, StopText;
  }

  lemma {:induction false} SettleCase(s: Sys, k: nat) returns (target: WorkId, e: Effect)
    requires TasksOk(s.stop, s.db, s.outputs, s.results, s.tasks)
    ensures Touches(s, TaskSettle(k), DoSettle(s, k), target, e)
  {
    target, e := "", Same;
    if k in s.tasks && !s.tasks[k].phase.Settled? {
      var t := s.tasks[k];
      assert Carries(s.db, t);
      hide TasksOk, SettleDb, PhaseOk, Apply;
      target, e := t.work.id, SettleEffect(s, t);
      SettleEffectIs(s, t);
      SettleEnds(s, k);
      hide DoSettle;
      assert Owns(s.tasks, k, target);
    }
  }

  /** The steps that leave the table alone. */
  predicate Quiet(a: Action) {
    match a
    case CancelWork(_) => false
    case AcknowledgeWork(_) => false
    case SchedAdmit => false
    case SchedBegin => false
    case SchedLaunch(_, _) => false
    case TaskSettle(_) => false
    case InsertWork => false
    case SchedSweep => false
    case Start(_, _) => false
    case _ => true
  }

  lemma {:induction false} QuietStart(s: Sys, k: nat, readable: bool, why: Bytes, outcome: Outcome)
    ensures DoStart(s, k, readable, why).db == s.db
    ensures DoDecide(s, k, outcome).db == s.db
  {
    hide Observable;
  }

  lemma {:induction false} QuietEnd(s: Sys, k: nat, why: Bytes)
    ensures DoThrow(s, k, why).db == s.db
    ensures DoWrite(s, k).db == s.db
    ensures DoExit(s, k).db == s.db
  {
    hide AfterRelease;
  }

  lemma {:induction false} QuietScheduler(s: Sys)
    ensures DoWake(s).db == s.db
    ensures DoPick(s).db == s.db
    ensures DoReturn(s).db == s.db
  {
    hide NextEligible, AfterRelease;
  }

  lemma {:induction false} QuietCase(s: Sys, a: Action)
    requires Quiet(a)
    ensures Step(s, a).db == s.db
  {
    hide NewWork, DoStart, DoDecide, DoThrow, DoWrite, DoExit, DoWake, DoPick, DoReturn;
    match a
    case TaskStart(k, readable, why) => QuietStart(s, k, readable, why, KernelStopped);
    case TaskDecide(k, outcome) => QuietStart(s, k, true, [], outcome);
    case TaskThrow(k, why) => QuietEnd(s, k, why);
    case TaskWrite(k) => QuietEnd(s, k, []);
    case TaskExit(k) => QuietEnd(s, k, []);
    case SchedWake => QuietScheduler(s);
    case SchedPick => QuietScheduler(s);
    case SchedReturn => QuietScheduler(s);
    case _ =>
  }

  /** What one step does to the table, apart from submissions, sweeps and restarts. */
  lemma {:induction false} StepTouches(s: Sys, a: Action) returns (target: WorkId, e: Effect)
    requires Inv(s) && !a.InsertWork? && !a.SchedSweep? && !a.Start?
    ensures Touches(s, a, Step(s, a), target, e)
  {
    hide DoCancelWork, DoAcknowledge, DoAdmit, DoBegin, DoLaunch, DoSettle;
    hide DbOk, TasksOk, Exclusive, SchedOk, OwnedOk, HoldersOk, CountersOk, FilesOk, ClientOk;
    target, e := "", Same;
    match a
    case CancelWork(id) =>
      target := id;
      e := CancelCase(s, id);
    case AcknowledgeWork(id) =>
      target := id;
      e := AcknowledgeCase(s, id);
    case SchedAdmit => target, e := AdmitCase(s);
    case SchedBegin => target, e := BeginCase(s);
    case SchedLaunch(ok, why) => target, e := LaunchCase(s, ok, why);
    case TaskSettle(k) => target, e := SettleCase(s, k);
    case _ => QuietCase(s, a);
  }

  /** Every step has one of the listed effects on a record, for the listed cause. */
  lemma {:induction false} StepEffect(s: Sys, a: Action, id: WorkId) returns (e: Effect)
    requires Inv(s) && id in s.db.records
    ensures Explains(s, a, id, Step(s, a), e)
  {
    hide Inv, Apply;
    match a
    case InsertWork => e := InsertCase(s, id);
    case SchedSweep => e := SweepCase(s, id);
    case Start(inventory, capacity) => e := BootCase(s, id, inventory, capacity);
    case _ =>
      var target;
      target, e := StepTouches(s, a);
      hide Step, Cause;
      e := TouchedRecord(s, a, Step(s, a), target, e, id);
  }

  lemma {:induction false} TouchedRecord(s: Sys, a: Action, t: Sys, target: WorkId, e: Effect, id: WorkId) returns (f: Effect)
    requires Touches(s, a, t, target, e) && id in s.db.records
    ensures Explains(s, a, id, t, f)
  {
    f := if e.Same? || id != target then Same else e;
    hide BeginRecord, SucceedRecord, CancelRunningRecord, FailRecord, RecoverRecord, ExpireRecord, RejectRecord, CancelRecord;
  }

  lemma {:induction false} InsertCase(s: Sys, id: WorkId) returns (e: Effect)
    requires Inv(s) && id in s.db.records
    ensures Explains(s, InsertWork, id, Step(s, InsertWork), e)
  {
    hide DbOk, TasksOk, Exclusive, SchedOk, OwnedOk, HoldersOk, CountersOk, FilesOk, NewWork;
    e := Same;
  }

  lemma {:induction false} SweepCase(s: Sys, id: WorkId) returns (e: Effect)
    requires id in s.db.records
    ensures Explains(s, SchedSweep, id, Step(s, SchedSweep), e)
  {
    hide ExpireRecord;
    e := if s.sched.Scanning? then ExpireEffect(s.sched.now) else Same;
  }

  lemma {:induction false} BootCase(s: Sys, id: WorkId, inventory: seq<Engine>, capacity: Capacity) returns (e: Effect)
    requires id in s.db.records
    ensures Explains(s, Start(inventory, capacity), id, Step(s, Start(inventory, capacity)), e)
  {
    hide RecoverRecord, ValidConfiguration;
    e := if !s.up && ValidConfiguration(inventory, capacity) then RecoverEffect else Same;
  }

  lemma {:induction false} SweepKeys(s: Sys)
    ensures forall id :: id in DoSweep(s).db.records <==> id in s.db.records
  {
    if s.sched.Scanning? {
      ExpireKeys(s.db, s.sched.now);
    }
    hide Expire;
  }

  lemma {:induction false} ExpireKeys(db: Db, now: int)
    ensures Expire(db, now).records.Keys == db.records.Keys
  {
  }

  lemma {:induction false} BootKeys(s: Sys, inventory: seq<Engine>, capacity: Capacity)
    ensures forall id :: id in DoBoot(s, inventory, capacity).db.records <==> id in s.db.records
  {
    hide RecoverRecord, ValidConfiguration;
  }

  lemma {:induction false} InsertsQueued(s: Sys, id: WorkId)
    requires Inv(s)
    requires id !in s.db.records && id in Step(s, InsertWork).db.records
    ensures s.client.InputWritten? && s.client.work.id == id
    ensures var r := Step(s, InsertWork).db.records[id];
            r.work.state.Queued? && r.work.attemptCount == 0 && r.rows == map[] && r.work.request == s.client.work.request
            && r.work.nextAttemptAt == r.work.request.eligibleAt && !r.work.cancelRequested && !r.work.acknowledged
  {
    hide DbOk, TasksOk, Exclusive, SchedOk, OwnedOk, HoldersOk, CountersOk, FilesOk;
  }

  /** A row that a step adds is queued, with no attempt, and came from a submission. */
  lemma {:induction false} StepInserts(s: Sys, a: Action, id: WorkId)
    requires Inv(s) && id !in s.db.records && id in Step(s, a).db.records
    ensures a.InsertWork? && s.client.InputWritten? && s.client.work.id == id
    ensures var r := Step(s, a).db.records[id];
            r.work.state.Queued? && r.work.attemptCount == 0 && r.rows == map[] && r.work.request == s.client.work.request
            && r.work.nextAttemptAt == r.work.request.eligibleAt && !r.work.cancelRequested && !r.work.acknowledged
  {
    hide Inv;
    if a.InsertWork? {
      InsertsQueued(s, id);
    } else if a.SchedSweep? {
      SweepKeys(s);
      hide DoSweep;
      assert false;
    } else if a.Start? {
      BootKeys(s, a.inventory, a.capacity);
      hide DoBoot;
      assert false;
    } else {
      var target, e := StepTouches(s, a);
      hide Step, Apply, Cause;
      assert false;
    }
  }
}
