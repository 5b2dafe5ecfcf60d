/** What each step of the scheduler thread decides, in the terms of the table, the capacity and the live leases. */
module Scheduling {
  import opened Basics
  import opened StoreModel
  import opened Statements
  import opened ResourceModel
  import opened Selection
  import opened RecordInvariant
  import opened System
  import opened Invariant
  import opened Preservation
  import opened Effects
  import opened Lifecycle

  predicate TooLate(r: Request, now: int) {
    r.deadline.Some? && r.deadline.value <= now
  }

  /** A running scheduler that has nothing at hand begins a scan at the current time; a stopped one begins none. */
  lemma {:induction false} WakeDecides(s: Sys)
    ensures Step(s, SchedWake) ==
              if s.up && !s.stop && s.sched.Idle? then s.(sched := Scanning(s.clock)) else s
  {
  }

  /** A scan begins with the deadline sweep. */
  lemma {:induction false} SweepDecides(s: Sys)
    requires s.sched.Scanning?
    ensures var t := Step(s, SchedSweep);
            t == s.(db := t.db, sched := Swept(s.sched.now)) && SweptAs(s.db, t.db, s.sched.now)
  {
    ExpireMeaning(s.db, s.sched.now);
    hide Expire;
  }

  /** The Work is failed for this reason if it is still queued, and nothing else happens to the table. */
  ghost predicate RejectedAs(db: Db, after: Db, id: WorkId, text: Diagnosis) {
    && TouchesOnly(db, after, id) && id in db.records
    && var r, t := db.records[id], after.records[id];
       if r.work.state.Queued? then t.rows == r.rows && t.work == r.work.(state := Failed, technicalFailure := text)
       else t == r
  }

  /** The requirement fits the machine when nothing else runs. */
  predicate FitsMachine(c: Capacity, r: Requirement) {
    && r.cpu <= c.cpu && r.ram <= c.ram
    && (r.gpu != [] ==> r.gpu in c.vram && r.vram <= c.vram[r.gpu])
  }

  /** The Work is failed for this reason, and the scheduler goes to the given place. */
  ghost predicate FailedFor(s: Sys, t: Sys, place: Scheduler, id: WorkId, text: Diagnosis) {
    t == s.(db := t.db, sched := place) && RejectedAs(s.db, t.db, id, text)
  }

  /** The picked Work gets a fresh lease of what the engine requires. */
  predicate Leased(s: Sys, t: Sys, engine: Engine, model: Bytes)
    requires s.sched.Picked?
  {
    t == s.(usage := t.usage, ledger := s.ledger[s.nextLease := engine.resources], nextLease := s.nextLease + 1,
            sched := Admitted(s.sched.now, s.sched.work, engine, model, s.nextLease))
  }

  /** Nothing but the scheduler's own place has changed, apart from zero entries among the counters. */
  predicate PutOff(s: Sys, t: Sys) {
    t == s.(usage := t.usage, sched := Idle)
  }

  /**
   What the scheduler does with the Work it has picked: it fails a Work whose deadline has passed, that no engine suits, or
   whose engine the machine can never hold; otherwise it takes a lease if the requirement fits beside all live leases,
   and goes back to sleep if it does not.
   */
  ghost predicate AdmittedAs(s: Sys, t: Sys)
    requires s.sched.Picked? && ValidCapacity(s.capacity) && ValidLedger(s.ledger)
  {
    var now, w := s.sched.now, s.sched.work;
    var choice := Select(w.request, s.inventory);
    if TooLate(w.request, now) then FailedFor(s, t, Idle, w.id, DeadlineBeforeDispatch)
    else if choice.NoMatch? then FailedFor(s, t, Idle, w.id, Unmatched(choice.stage))
    else if !FitsMachine(s.capacity, choice.engine.resources) then FailedFor(s, t, Idle, w.id, InsufficientCapacity)
    else
      && ValidRequirement(choice.engine.resources)
      && if Fits(s.capacity, s.ledger, choice.engine.resources) then Leased(s, t, choice.engine, choice.model)
         else PutOff(s, t)
  }

  lemma {:induction false} RejectPickedMeaning(s: Sys, text: Diagnosis)
    requires s.sched.Picked? && s.sched.work.id in s.db.records
    ensures var t := RejectPicked(s, text);
            FailedFor(s, t, Idle, s.sched.work.id, text)
  {
    RejectMeaning(s.db, s.sched.work.id, text);
    hide Reject, TouchesOnly;
  }

  lemma {:induction false} ChosenIsValid(s: Sys)
    requires CountersOk(s.up, s.inventory, s.capacity, s.usage, s.ledger) && s.up && s.sched.Picked?
    ensures var choice := Select(s.sched.work.request, s.inventory);
            choice.Chosen? ==> ValidRequirement(choice.engine.resources)
  {
    hide Balanced, ValidRequirement;
    SelectMeaning(s.sched.work.request, s.inventory);
    hide Select, PassesAll, Survives, IsFirstEmpty;
  }

  lemma {:induction false} PickedFacts(s: Sys)
    requires Inv(s) && s.sched.Picked?
    ensures s.up && s.sched.work.id in s.db.records
    ensures CountersOk(s.up, s.inventory, s.capacity, s.usage, s.ledger)
    ensures ValidCapacity(s.capacity) && ValidLedger(s.ledger) && Balanced(s.capacity, s.usage, s.ledger)
  {
    hide DbOk, TasksOk, Exclusive, OwnedOk, HoldersOk, FilesOk, ClientOk, Eligible;
  }

  lemma {:induction false} AdmitRejects(s: Sys)
    requires s.sched.Picked?
    ensures DeadlineReached(s.sched.work.request, s.sched.now) ==> DoAdmit(s) == RejectPicked(s, DeadlineBeforeDispatch)
    ensures !DeadlineReached(s.sched.work.request, s.sched.now) ==>
              match Select(s.sched.work.request, s.inventory)
              case NoMatch(stage) => DoAdmit(s) == RejectPicked(s, Unmatched(stage))
              case Chosen(engine, model) =>
                !CanEverReserve(s.capacity, engine.resources) ==> DoAdmit(s) == RejectPicked(s, InsufficientCapacity)
  {
    hide Select, AfterReserve, Decide, CanEverReserve, DeadlineReached, RejectPicked;
  }

  /** The Work that no condition excludes is admitted, or left to wait. */
  lemma {:induction false} AdmitReserves(s: Sys, engine: Engine, model: Bytes)
    requires s.sched.Picked? && Balanced(s.capacity, s.usage, s.ledger)
    requires !TooLate(s.sched.work.request, s.sched.now) && Select(s.sched.work.request, s.inventory) == Chosen(engine, model)
    requires FitsMachine(s.capacity, engine.resources) && ValidRequirement(engine.resources)
    ensures AdmittedAs(s, DoAdmit(s))
  {
    hide Balanced, Select, Fits, ValidRequirement, AfterReserve, Decide, DoAdmit, RejectedAs;
    ReserveIsExact(s.capacity, s.usage, s.ledger, engine.resources);
    AdmitsTo(s, engine, model);
  }

  /** The reason for which a picked Work is failed, if there is one. */
  function RefusalOf(s: Sys): Option<Diagnosis>
    requires s.sched.Picked?
  {
    var w := s.sched.work;
    if TooLate(w.request, s.sched.now) then Some(DeadlineBeforeDispatch)
    else
      match Select(w.request, s.inventory)
      case NoMatch(stage) => Some(Unmatched(stage))
      case Chosen(engine, _) => if FitsMachine(s.capacity, engine.resources) then None else Some(InsufficientCapacity)
  }

  lemma {:induction false} RefusalIs(s: Sys)
    requires s.sched.Picked? && RefusalOf(s).Some?
    ensures DoAdmit(s) == RejectPicked(s, RefusalOf(s).value)
  {
    AdmitRejects(s);
    hide Select, DoAdmit, RejectPicked;
  }

  lemma {:induction false} RefusedIsAdmittedAs(s: Sys, t: Sys)
    requires s.sched.Picked? && ValidCapacity(s.capacity) && ValidLedger(s.ledger) && RefusalOf(s).Some?
    requires FailedFor(s, t, Idle, s.sched.work.id, RefusalOf(s).value)
    ensures AdmittedAs(s, t)
  {
    hide Select, FailedFor, TooLate, FitsMachine, Fits, ValidRequirement, ValidLedger, ValidCapacity;
  }

  lemma {:induction false} AdmitDecides(s: Sys)
    requires Inv(s) && s.sched.Picked?
    ensures ValidCapacity(s.capacity) && ValidLedger(s.ledger)
    ensures AdmittedAs(s, Step(s, SchedAdmit))
  {
    hide Inv, Select, RejectPicked, RejectedAs, Balanced, ValidLedger, ValidCapacity, CountersOk, DoAdmit, ValidRequirement,
         AdmittedAs, TooLate, FitsMachine;
    PickedFacts(s);
    ChosenIsValid(s);
    if RefusalOf(s).Some? {
      RefusalIs(s);
      RejectPickedMeaning(s, RefusalOf(s).value);
      RefusedIsAdmittedAs(s, DoAdmit(s));
    } else {
      var c := Select(s.sched.work.request, s.inventory);
      AdmitReserves(s, c.engine, c.model);
    }
  }

  /** The next attempt of the Work starts, on this engine and model. */
  ghost predicate StartedAs(db: Db, after: Db, id: WorkId, engine: Bytes, model: Bytes, now: int)
    requires id in db.records
  {
    var r, n := db.records[id], db.records[id].work.attemptCount + 1;
    && TouchesOnly(db, after, id)
    && after.records[id].work ==
         r.work.(state := Running, attemptCount := n, selectedEngine := engine, selectedModel := model,
                 technicalFailure := Empty)
    && n !in r.rows && after.records[id].rows == r.rows[n := Attempt(engine, model, now, None, Active, Empty)]
  }

  /** The scheduler is about to launch this attempt. */
  predicate StartsFor(s: Sys, t: Sys, attempt: int)
    requires s.sched.Admitted?
  {
    t == s.(db := t.db, sched := Begun(s.sched.work, attempt, s.clock, s.sched.lease))
  }

  predicate GivesUp(s: Sys, t: Sys)
    requires s.sched.Admitted?
  {
    t == s.(sched := Returning(s.sched.lease))
  }

  /**
   What the scheduler does with a Work for which it holds a lease: it fails a Work whose deadline has passed by now,
   leaves one that was cancelled meanwhile, and otherwise starts its next attempt; in the first two cases it returns the
   lease.
   */
  ghost predicate BegunAs(s: Sys, t: Sys)
    requires s.sched.Admitted? && s.sched.work.id in s.db.records
  {
    var w := s.sched.work;
    var r := s.db.records[w.id];
    if TooLate(w.request, s.clock) then FailedFor(s, t, Returning(s.sched.lease), w.id, DeadlineBeforeDispatch)
    else if r.work.state.Queued? && !r.work.cancelRequested then
      && StartsFor(s, t, r.work.attemptCount + 1)
      && StartedAs(s.db, t.db, w.id, s.sched.engine.id, s.sched.model, s.clock)
    else GivesUp(s, t)
  }

  lemma {:induction false} AdmittedFacts(s: Sys)
    requires Inv(s) && s.sched.Admitted?
    ensures s.sched.work.id in s.db.records && RecordOk(s.sched.work.id, s.db.records[s.sched.work.id])
  {
    hide TasksOk, Exclusive, OwnedOk, HoldersOk, CountersOk, FilesOk, ClientOk, Eligible, Select, RecordOk;
  }

  lemma {:induction false} BeginPlaces(s: Sys)
    requires s.sched.Admitted? && !BeginResult(s.db, s.sched.work.id).KeyConflict?
    ensures var id := s.sched.work.id;
            DoBegin(s) ==
              if DeadlineReached(s.sched.work.request, s.clock) then
                s.(db := Reject(s.db, id, DeadlineBeforeDispatch), sched := Returning(s.sched.lease))
              else if BeginResult(s.db, id).Lost? then s.(sched := Returning(s.sched.lease))
              else s.(db := BeginAttempt(s.db, id, s.sched.engine.id, s.sched.model, s.clock),
                      sched := Begun(s.sched.work, BeginResult(s.db, id).attempt, s.clock, s.sched.lease))
  {
    hide DeadlineReached, Reject, BeginAttempt, BeginResult;
    match BeginResult(s.db, s.sched.work.id)
    case Began(n) =>
    case Lost =>
  }

  lemma {:induction false} BeginTables(db: Db, id: WorkId, engine: Bytes, model: Bytes, now: int)
    requires id in db.records && RecordOk(id, db.records[id])
    ensures RejectedAs(db, Reject(db, id, DeadlineBeforeDispatch), id, DeadlineBeforeDispatch)
    ensures var w := db.records[id].work;
            if w.state.Queued? && !w.cancelRequested then
              && BeginResult(db, id) == Began(w.attemptCount + 1)
              && StartedAs(db, BeginAttempt(db, id, engine, model, now), id, engine, model, now)
            else BeginResult(db, id) == Lost
  {
    BeginMeaning(db, id, engine, model, now);
    RejectMeaning(db, id, DeadlineBeforeDispatch);
    hide RecordOk, Reject, BeginAttempt, BeginResult;
  }

  lemma {:induction false} BeginCases(s: Sys, t: Sys, db: Db)
    requires s.sched.Admitted? && s.sched.work.id in s.db.records
    requires var id, r := s.sched.work.id, s.db.records[s.sched.work.id];
             if TooLate(s.sched.work.request, s.clock) then
               t == s.(db := db, sched := Returning(s.sched.lease)) && RejectedAs(s.db, db, id, DeadlineBeforeDispatch)
             else if r.work.state.Queued? && !r.work.cancelRequested then
               && t == s.(db := db, sched := Begun(s.sched.work, r.work.attemptCount + 1, s.clock, s.sched.lease))
               && StartedAs(s.db, db, id, s.sched.engine.id, s.sched.model, s.clock)
             else t == s.(sched := Returning(s.sched.lease))
    ensures BegunAs(s, t)
  {
    hide RejectedAs, StartedAs;
  }

  lemma {:induction false} BeginDecides(s: Sys)
    requires Inv(s) && s.sched.Admitted?
    ensures s.sched.work.id in s.db.records
    ensures BegunAs(s, Step(s, SchedBegin))
  {
    hide Inv, RecordOk, Reject, BeginAttempt, BeginResult, RejectedAs, StartedAs, DoBegin, BegunAs;
    AdmittedFacts(s);
    var id := s.sched.work.id;
    BeginTables(s.db, id, s.sched.engine.id, s.sched.model, s.clock);
    BeginPlaces(s);
    var db :=
      if TooLate(s.sched.work.request, s.clock) then Reject(s.db, id, DeadlineBeforeDispatch)
      else BeginAttempt(s.db, id, s.sched.engine.id, s.sched.model, s.clock);
    BeginCases(s, Step(s, SchedBegin), db);
  }

  /** An executor takes over the attempt and its lease, or the attempt fails for the reason of the failed launch. */
  lemma {:induction false} LaunchDecides(s: Sys, ok: bool, why: Bytes)
    requires Inv(s) && s.sched.Begun?
    ensures var t := Step(s, SchedLaunch(ok, why)); var q := s.sched;
            if ok then
              t == s.(tasks := s.tasks[q.lease := Task(q.work, q.attempt, q.startedAt, Launched)], sched := Idle)
            else
              && t == s.(db := t.db, sched := Returning(q.lease)) && TouchesOnly(s.db, t.db, q.work.id)
              && q.work.id in s.db.records
              && SettledByFailure(s.db.records[q.work.id], t.db.records[q.work.id], Faulted, LaunchFailure(why), s.clock)
  {
    var id := s.sched.work.id;
    BegunFacts(s);
    hide Inv;
    FailureSettles(id, s.db.records[id], Faulted, LaunchFailure(why), s.clock);
    hide RecordOk, SettledByFailure, FailRecord;
  }

  lemma {:induction false} BegunFacts(s: Sys)
    requires Inv(s) && s.sched.Begun?
    ensures var id := s.sched.work.id;
            && id in s.db.records && RecordOk(id, s.db.records[id])
            && s.db.records[id].work.state.Running? && s.db.records[id].work.attemptCount == s.sched.attempt
  {
    hide TasksOk, Exclusive, OwnedOk, HoldersOk, CountersOk, FilesOk, ClientOk, RecordOk;
    assert Carries(s.db, Task(s.sched.work, s.sched.attempt, s.sched.startedAt, Launched));
  }

  /** The lease is taken out of the ledger, and every counter goes down by its amount. */
  ghost predicate Released(s: Sys, t: Sys, lease: nat)
    requires ValidLedger(s.ledger)
  {
    && lease in s.ledger && t.ledger == s.ledger - {lease}
    && forall kind :: UsageOf(t.usage, kind) == UsageOf(s.usage, kind) - Amount(s.ledger[lease], kind)
  }

  lemma {:induction false} ReleaseMeaning(s: Sys, lease: nat)
    requires Balanced(s.capacity, s.usage, s.ledger) && lease in s.ledger
    ensures var t := Release(s, lease); t == s.(usage := t.usage, ledger := t.ledger) && Released(s, t, lease)
  {
    ReleaseKeepsBalance(s.capacity, s.usage, s.ledger, lease);
    var t := Release(s, lease);
    hide AfterRelease;
    forall kind
      ensures UsageOf(t.usage, kind) == UsageOf(s.usage, kind) - Amount(s.ledger[lease], kind)
    {
      TotalRemove(s.ledger, lease, kind);
      assert UsageOf(s.usage, kind) == Total(s.ledger, kind);
      assert UsageOf(t.usage, kind) == Total(t.ledger, kind);
    }
  }

  lemma {:induction false} HolderFacts(s: Sys, lease: nat)
    requires Inv(s) && s.up && (HeldByScheduler(s.sched, lease) || lease in s.tasks)
    ensures lease in s.ledger && Balanced(s.capacity, s.usage, s.ledger) && ValidLedger(s.ledger)
  {
    hide DbOk, TasksOk, Exclusive, SchedOk, OwnedOk, FilesOk, ClientOk;
  }

  lemma {:induction false} ReturnDecides(s: Sys)
    requires Inv(s) && s.sched.Returning?
    ensures ValidLedger(s.ledger)
    ensures var t := Step(s, SchedReturn);
            t == s.(usage := t.usage, ledger := t.ledger, sched := Idle) && Released(s, t, s.sched.lease)
  {
    assert s.up by {
      hide DbOk, TasksOk, Exclusive, SchedOk, OwnedOk, FilesOk, ClientOk, CountersOk, HoldersOk;
    }
    HolderFacts(s, s.sched.lease);
    hide Inv;
    ReleaseMeaning(s, s.sched.lease);
    hide Release, Balanced;
  }
}
