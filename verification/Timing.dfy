/** When attempts start and end, over runs whose clock never goes back. */
module Timing {
  import opened Basics
  import opened StoreModel
  import opened ResourceModel
  import opened Selection
  import opened RecordInvariant
  import opened System
  import opened Invariant
  import opened Preservation
  import opened Effects
  import opened Movements
  import opened Lifecycle

  /** Attempt `n` starts after the eligibility time, and a retry delay after the previous attempt has ended. */
  ghost predicate StartOk(r: Record, n: int)
    requires n in r.rows
  {
    && r.work.request.eligibleAt <= r.rows[n].startedAt
    && (n - 1 in r.rows && r.rows[n - 1].endedAt.Some? ==>
          r.rows[n - 1].endedAt.value + r.work.request.retryDelay <= r.rows[n].startedAt)
  }

  /** A queued Work waits at least for its eligibility time and for a retry delay after its last attempt. */
  predicate NextOk(r: Record) {
    var n := r.work.attemptCount;
    r.work.state.Queued? ==>
      && (n == 0 ==> r.work.request.eligibleAt <= r.work.nextAttemptAt)
      && (n in r.rows && r.rows[n].endedAt.Some? ==>
            r.rows[n].endedAt.value + r.work.request.retryDelay <= r.work.nextAttemptAt)
  }

  ghost predicate Timely(r: Record) {
    (forall n :: n in r.rows ==> StartOk(r, n)) && NextOk(r)
  }

  ghost predicate TimelyDb(db: Db) {
    forall id :: id in db.records ==> Timely(db.records[id])
  }

  /** The scheduler's reading of the clock is not ahead of it. */
  predicate SchedTimely(sched: Scheduler, clock: int) {
    match sched
    case Scanning(now) => now <= clock
    case Swept(now) => now <= clock
    case Picked(now, _) => now <= clock
    case Admitted(now, _, _, _, _) => now <= clock
    case _ => true
  }

  /** An executor that stopped at its stop time has that time behind it. */
  ghost predicate StopsTimely(tasks: Tasks, clock: int) {
    forall k :: k in tasks && tasks[k].phase == Decided(StopTimeReached) ==> StopTimePassed(tasks[k], clock)
  }

  predicate StopTimePassed(t: Task, clock: int) {
    StopTime(t.work.request, t.startedAt).Some? && StopTime(t.work.request, t.startedAt).value <= clock
  }

  lemma {:induction false} BeginTimely(id: WorkId, r: Record, engine: Bytes, model: Bytes, clock: int)
    requires RecordOk(id, r) && Timely(r) && r.work.state.Queued?
    requires r.work.nextAttemptAt <= clock && r.work.request.eligibleAt <= clock
    ensures Timely(BeginRecord(r, engine, model, clock))
  {
    hide EarlierRowsEnded, StartsBeforeDeadline, FlagsOk;
    var t := BeginRecord(r, engine, model, clock);
    forall n | n in t.rows
      ensures StartOk(t, n)
    {
      if n != t.work.attemptCount {
        assert StartOk(r, n);
      }
    }
  }

  /** Ending the last attempt now and queueing for a retry delay from now keeps the record timely. */
  lemma {:induction false} EndTimely(id: WorkId, r: Record, w: Work, state: AttemptState, text: Diagnosis, clock: int)
    requires RecordOk(id, r) && Timely(r) && r.work.state.Running?
    requires w.request == r.work.request && w.attemptCount == r.work.attemptCount
    requires w.state.Queued? ==> w.nextAttemptAt == clock + w.request.retryDelay
    ensures Timely(Record(w, EndRow(r.rows, r.work.attemptCount, state, text, clock)))
  {
    hide EarlierRowsEnded, StartsBeforeDeadline, FlagsOk;
    var t := Record(w, EndRow(r.rows, r.work.attemptCount, state, text, clock));
    forall n | n in t.rows
      ensures StartOk(t, n)
    {
      assert StartOk(r, n);
      assert n - 1 != r.work.attemptCount;
    }
  }

  lemma {:induction false} SameRowsTimely(r: Record, w: Work)
    requires Timely(r) && w.request == r.work.request && w.attemptCount == r.work.attemptCount
    requires w.state.Queued? ==> r.work.state.Queued? && w.nextAttemptAt == r.work.nextAttemptAt
    ensures Timely(Record(w, r.rows))
  {
    forall n | n in r.rows
      ensures StartOk(Record(w, r.rows), n)
    {
      assert StartOk(r, n);
    }
  }

  /** Every effect keeps a record timely. */
  lemma {:induction false} EffectTimely(id: WorkId, r: Record, e: Effect, clock: int)
    requires RecordOk(id, r) && Timely(r)
    requires e.BeginEffect? ==> r.work.state.Queued? && r.work.nextAttemptAt <= clock && r.work.request.eligibleAt <= clock
    requires e.SucceedEffect? || e.WithdrawEffect? || e.FailEffect? ==> r.work.state.Running?
    ensures Timely(Apply(r, e, clock))
  {
    var t := Apply(r, e, clock);
    hide RecordOk, Timely;
    match e
    case Same =>
    case BeginEffect(engine, model) => BeginTimely(id, r, engine, model, clock);
    case SucceedEffect => EndTimely(id, r, t.work, Completed, Empty, clock);
    case WithdrawEffect => EndTimely(id, r, t.work, Withdrawn, CancelledOnRequest, clock);
    case FailEffect(state, text) => EndTimely(id, r, t.work, state, text, clock);
    case RecoverEffect =>
      if r.work.state.Running? {
        EndTimely(id, r, t.work, Interrupted, KernelRestarted, clock);
      }
    case ExpireEffect(now) => SameRowsTimely(r, t.work);
    case RejectEffect(text) => SameRowsTimely(r, t.work);
    case CancelEffect => SameRowsTimely(r, t.work);
    case AcknowledgeEffect => SameRowsTimely(r, t.work);
  }

  /** The scheduler starts an attempt only of a Work that was eligible at its reading of the clock. */
  lemma {:induction false} BeginIsTimely(s: Sys, a: Action, id: WorkId, e: Effect)
    requires SchedOk(s.sched, s.db, s.tasks, s.inventory) && SchedTimely(s.sched, s.clock)
    requires id in s.db.records && e.BeginEffect? && Cause(s, a, id, e)
    ensures s.db.records[id].work.state.Queued?
    ensures s.db.records[id].work.nextAttemptAt <= s.clock && s.db.records[id].work.request.eligibleAt <= s.clock
  {
    hide Select;
  }

  lemma {:induction false} EndIsRunning(s: Sys, a: Action, id: WorkId, e: Effect)
    requires TasksOk(s.stop, s.db, s.outputs, s.results, s.tasks)
    requires id in s.db.records && Cause(s, a, id, e)
    requires e.SucceedEffect? || e.WithdrawEffect? || e.FailEffect?
    ensures s.db.records[id].work.state.Running?
  {
    hide PhaseOk;
  }

  lemma {:induction false} StepTimelyRecord(s: Sys, a: Action, id: WorkId)
    requires Inv(s) && TimelyDb(s.db) && SchedTimely(s.sched, s.clock)
    requires id in Step(s, a).db.records
    ensures Timely(Step(s, a).db.records[id])
  {
    if id in s.db.records {
      var e := StepEffect(s, a, id);
      hide Step, DbOk, TasksOk, Exclusive, SchedOk, OwnedOk, HoldersOk, CountersOk, FilesOk, ClientOk;
      assert Explains(s, a, id, Step(s, a), e);
      if e.BeginEffect? {
        BeginIsTimely(s, a, id, e);
      } else if e.SucceedEffect? || e.WithdrawEffect? || e.FailEffect? {
        EndIsRunning(s, a, id, e);
      }
      RecordIsOk(s.db, id);
      hide Inv, TimelyDb, Timely, Apply, Cause;
      EffectTimely(id, s.db.records[id], e, s.clock);
    } else {
      StepInserts(s, a, id);
    }
  }

  lemma {:induction false} RecordIsOk(db: Db, id: WorkId)
    requires DbOk(db) && id in db.records
    ensures RecordOk(id, db.records[id])
  {
  }

  // Whole runs

  /** The invariant of a run whose clock never goes back. */
  ghost predicate TimelyState(s: Sys) {
    Inv(s) && TimelyDb(s.db) && SchedTimely(s.sched, s.clock) && StopsTimely(s.tasks, s.clock)
  }

  predicate Forward(s: Sys, a: Action) {
    a.ClockTo? ==> s.clock <= a.time
  }

  lemma {:induction false} SchedTimelyStep(s: Sys, a: Action)
    requires SchedTimely(s.sched, s.clock) && Forward(s, a)
    ensures SchedTimely(Step(s, a).sched, Step(s, a).clock)
  {
    SchedSteps(s, a);
    hide Step, Select, NextEligible;
  }

  lemma {:induction false} StopsTimelyStep(s: Sys, a: Action)
    requires StopsTimely(s.tasks, s.clock) && Forward(s, a)
    ensures StopsTimely(Step(s, a).tasks, Step(s, a).clock)
  {
    SchedSteps(s, a);
    hide SchedStep;
    var t := Step(s, a);
    forall k | k in t.tasks && t.tasks[k].phase == Decided(StopTimeReached)
      ensures StopTimePassed(t.tasks[k], t.clock)
    {
      if a.SchedLaunch? {
        LaunchSteps(s, a.ok, a.why, k);
        hide DoLaunch;
      } else {
        TaskSteps(s, a, k);
        hide Step, StopsTimely;
        StopStep(s, t.tasks, k);
      }
    }
  }

  lemma {:induction false} StopStep(s: Sys, tasks: Tasks, k: nat)
    requires StopsTimely(s.tasks, s.clock) && Stepped(s, tasks, k)
    requires k in tasks && tasks[k].phase == Decided(StopTimeReached)
    ensures StopTimePassed(tasks[k], s.clock)
  {
  }

  lemma {:induction false} TimelyStep(s: Sys, a: Action)
    requires TimelyState(s) && Forward(s, a)
    ensures TimelyState(Step(s, a))
  {
    StepKeeps(s, a);
    SchedTimelyStep(s, a);
    StopsTimelyStep(s, a);
    hide Inv, Step, Timely, StopsTimely, SchedTimely;
    forall id | id in Step(s, a).db.records
      ensures Timely(Step(s, a).db.records[id])
    {
      StepTimelyRecord(s, a, id);
    }
  }

  lemma {:induction false} TimelyRun(s: Sys, actions: seq<Action>)
    requires TimelyState(s) && Monotone(s, actions)
    ensures TimelyState(Run(s, actions))
    decreases |actions|
  {
    hide TimelyState;
    if actions != [] {
      TimelyStep(s, actions[0]);
      TimelyRun(Step(s, actions[0]), actions[1..]);
    }
  }

  lemma {:induction false} TimelyReachable(actions: seq<Action>)
    requires Monotone(INIT, actions)
    ensures TimelyState(Run(INIT, actions))
  {
    InitHolds();
    TimelyRun(INIT, actions);
  }

  /** Every attempt starts strictly before the deadline of its Work, whatever the clock does. */
  lemma {:induction false} StartsBeforeTheDeadline(actions: seq<Action>, id: WorkId, n: int)
    requires id in Run(INIT, actions).db.records && n in Run(INIT, actions).db.records[id].rows
    ensures var r := Run(INIT, actions).db.records[id];
            r.work.request.deadline.Some? ==> r.rows[n].startedAt < r.work.request.deadline.value
  {
    Reachable(actions);
    hide Run;
    RecordIsOk(Run(INIT, actions).db, id);
  }

  /**
   With a clock that never goes back, no attempt starts before the eligibility time, and each one starts at least a
   retry delay after the one before it has ended.
   */
  lemma {:induction false} StartsAreSpaced(actions: seq<Action>, id: WorkId, n: int)
    requires Monotone(INIT, actions)
    requires id in Run(INIT, actions).db.records && n in Run(INIT, actions).db.records[id].rows
    ensures var r := Run(INIT, actions).db.records[id];
            && r.work.request.eligibleAt <= r.rows[n].startedAt
            && (n > 1 ==>
                  && n - 1 in r.rows && r.rows[n - 1].endedAt.Some?
                  && r.rows[n - 1].endedAt.value + r.work.request.retryDelay <= r.rows[n].startedAt)
  {
    TimelyReachable(actions);
    var s := Run(INIT, actions);
    hide Run, TasksOk, Exclusive, SchedOk, OwnedOk, HoldersOk, CountersOk, FilesOk, ClientOk;
    RecordIsOk(s.db, id);
    assert StartOk(s.db.records[id], n);
  }

  /** An attempt may run until a certain time. */
  ghost predicate Bound(r: Request, startedAt: int, time: int) {
    (r.timeout.Some? && time == startedAt + r.timeout.value) || (r.deadline.Some? && time == r.deadline.value)
  }

  /** The stop time is the earliest bound; the timeout is named as the reason exactly when it is such a bound. */
  lemma {:induction false} StopTimeIsEarliest(r: Request, startedAt: int)
    ensures StopTime(r, startedAt).None? <==> forall time :: !Bound(r, startedAt, time)
    ensures StopTime(r, startedAt).Some? ==>
              var stop := StopTime(r, startedAt).value;
              && Bound(r, startedAt, stop)
              && (forall time :: Bound(r, startedAt, time) ==> stop <= time)
              && (TimeoutWins(r, startedAt) <==> r.timeout.Some? && stop == startedAt + r.timeout.value)
  {
    if r.timeout.Some? {
      assert Bound(r, startedAt, startedAt + r.timeout.value);
    }
    if r.deadline.Some? {
      assert Bound(r, startedAt, r.deadline.value);
    }
  }

  lemma {:induction false} DeadlineIsFinal(r: Record, n: int, text: Diagnosis, now: int)
    requires r.work.state.Running? && r.work.request.retryDelay >= 0 && DeadlineReached(r.work.request, now)
    ensures var state := FailRecord(r, n, TimedOut, text, now).work.state; state.Failed? || state.Cancelled?
  {
  }

  /**
   An attempt that was stopped at the deadline, be it a tie with the timeout, leaves its Work failed, or cancelled, when it
   ends, however many attempts the Work had left; it stays so in every continuation.
   */
  lemma {:induction false} DeadlineStopIsTerminal(actions: seq<Action>, k: nat, later: seq<Action>)
    requires Monotone(INIT, actions)
    requires k in Run(INIT, actions).tasks
    requires var t := Run(INIT, actions).tasks[k];
             && t.phase == Decided(StopTimeReached)
             && t.work.request.deadline.Some? && StopTime(t.work.request, t.startedAt) == t.work.request.deadline
    ensures var s := Run(INIT, actions); var id := s.tasks[k].work.id; var after := Run(Step(s, TaskSettle(k)), later);
            id in s.db.records && id in after.db.records
            && (after.db.records[id].work.state.Failed? || after.db.records[id].work.state.Cancelled?)
            && after.db.records[id].work.attemptCount == s.db.records[id].work.attemptCount
  {
    TimelyReachable(actions);
    var s := Run(INIT, actions);
    var t := s.tasks[k];
    var id := t.work.id;
    var next := Step(s, TaskSettle(k));
    StepKeeps(s, TaskSettle(k));
    hide Run, Exclusive, SchedOk, OwnedOk, HoldersOk, CountersOk, FilesOk, ClientOk, PhaseOk, TimelyDb, SchedTimely;
    assert Carries(s.db, t);
    RecordIsOk(s.db, id);
    assert StopTimePassed(t, s.clock);
    DeadlineIsFinal(s.db.records[id], t.attempt, StopText(t), s.clock);
    hide TasksOk, DbOk, RecordOk, StopText;
    SettlesStop(s, k);
    hide Inv, Step;
    TerminalIsAbsorbing(next, later, id);
  }

  lemma {:induction false} SettlesStop(s: Sys, k: nat)
    requires k in s.tasks && s.tasks[k].phase == Decided(StopTimeReached)
    requires s.tasks[k].work.id in s.db.records && s.db.records[s.tasks[k].work.id].work.state.Running?
    ensures var t := s.tasks[k]; var id := t.work.id; var next := Step(s, TaskSettle(k));
            && id in next.db.records
            && next.db.records[id] == FailRecord(s.db.records[id], t.attempt, TimedOut, StopText(t), s.clock)
            && next.db.records[id].work.attemptCount == s.db.records[id].work.attemptCount
  {
    hide StopText;
  }
}
