/** What each step of an executor decides, from its start to its exit, and how every outcome settles its Work. */
module Executors {
  import opened Basics
  import opened StoreModel
  import opened Statements
  import opened ResourceModel
  import opened RecordInvariant
  import opened System
  import opened Invariant
  import opened Preservation
  import opened Effects
  import opened Lifecycle
  import opened Timing
  import opened Scheduling

  /** The executor is in its next phase. */
  function Moved(s: Sys, k: nat, phase: Phase): Sys
    requires k in s.tasks
  {
    s.(tasks := s.tasks[k := s.tasks[k].(phase := phase)])
  }

  /** An executor that finds the Kernel stopping leaves at once; otherwise it reads its input and begins its call. */
  lemma {:induction false} StartDecides(s: Sys, k: nat, readable: bool, why: Bytes)
    requires k in s.tasks && s.tasks[k].phase.Launched?
    ensures Step(s, TaskStart(k, readable, why)) ==
              Moved(s, k, if s.stop then Settled
                          else if readable && s.tasks[k].work.id in s.inputs then Executing
                          else Raised(why))
  {
  }

  /** The reason for an outcome is there: a stop, a cancel request, or a bound on the attempt that has been reached. */
  ghost predicate Seen(s: Sys, t: Task, outcome: Outcome) {
    match outcome
    case KernelStopped => s.stop
    case CancelSeen => t.work.id in s.db.records && s.db.records[t.work.id].work.cancelRequested
    case StopTimeReached => exists time :: Bound(t.work.request, t.startedAt, time) && time <= s.clock
    case WorkerFailed(_) => true
    case WorkerSucceeded(_) => true
  }

  /** A call ends with an outcome exactly when there is a reason for it. */
  lemma {:induction false} CallEnds(s: Sys, k: nat, outcome: Outcome)
    requires k in s.tasks && s.tasks[k].phase.Executing?
    ensures var t := Step(s, TaskDecide(k, outcome)); var task := s.tasks[k];
            t == if Seen(s, task, outcome) then
                   Moved(s, k, Decided(outcome)).(
                     outputs := if outcome.WorkerSucceeded? then s.outputs[(task.work.id, task.attempt) := outcome.payload]
                                else s.outputs)
                 else s
  {
    SeenIsObservable(s, s.tasks[k], outcome);
    hide Observable, Seen;
  }

  lemma {:induction false} SeenIsObservable(s: Sys, t: Task, outcome: Outcome)
    ensures Observable(s, t, outcome) <==> Seen(s, t, outcome)
  {
    StopTimeIsEarliest(t.work.request, t.startedAt);
    hide StopTime, Bound;
  }

  /** The result file is written as a whole, and the executor goes on to record its success. */
  lemma {:induction false} WriteDecides(s: Sys, k: nat)
    requires k in s.tasks && s.tasks[k].phase.Committed?
    ensures var payload := s.tasks[k].phase.payload;
            Step(s, TaskWrite(k)) == Moved(s, k, Written(payload)).(results := s.results[s.tasks[k].work.id := payload])
  {
  }

  lemma {:induction false} ThrowDecides(s: Sys, k: nat, why: Bytes)
    requires k in s.tasks && (s.tasks[k].phase.Executing? || s.tasks[k].phase.Committed?)
    ensures Step(s, TaskThrow(k, why)) == Moved(s, k, Raised(why))
  {
  }

  /** An executor that has ended its attempt goes away and returns its lease. */
  lemma {:induction false} ExitDecides(s: Sys, k: nat)
    requires Inv(s) && k in s.tasks && s.tasks[k].phase.Settled?
    ensures ValidLedger(s.ledger)
    ensures var t := Step(s, TaskExit(k));
            t == s.(tasks := s.tasks - {k}, usage := t.usage, ledger := t.ledger) && Released(s, t, k)
  {
    TasksMeanUp(s, k);
    HolderFacts(s, k);
    hide Inv;
    ReleaseMeaning(s, k);
    hide Release, Balanced;
  }

  lemma {:induction false} TasksMeanUp(s: Sys, k: nat)
    requires Inv(s) && k in s.tasks
    ensures s.up
  {
    hide DbOk, TasksOk, Exclusive, SchedOk, OwnedOk, FilesOk, ClientOk, CountersOk, HoldersOk;
  }

  // How an outcome settles the Work

  /** Which bound stopped the attempt: the timeout, unless the deadline comes strictly before it. */
  predicate TimedOutFirst(t: Task) {
    var r := t.work.request;
    r.timeout.Some? && (r.deadline.Some? ==> t.startedAt + r.timeout.value <= r.deadline.value)
  }

  /**
   How an executor settles its Work. A withdrawal cancels it, a success completes it; a timeout, a failure and an error
   cost it one attempt; an executor that was stopped leaves it to the restart recovery.
   */
  ghost predicate SettledAs(r: Record, t: Record, task: Task, stop: bool, now: int) {
    match task.phase
    case Decided(KernelStopped) => t == r
    case Decided(CancelSeen) => ClosedAs(r, t, Cancelled, CancelledOnRequest, Withdrawn, CancelledOnRequest, now)
    case Decided(StopTimeReached) =>
      SettledByFailure(r, t, TimedOut, if TimedOutFirst(task) then AttemptTimeout else DeadlineDuringAttempt, now)
    case Decided(WorkerFailed(text)) => SettledByFailure(r, t, Faulted, WorkerReport(text), now)
    case Decided(WorkerSucceeded(_)) => t == r
    case Withdrawing => ClosedAs(r, t, Cancelled, CancelledOnRequest, Withdrawn, CancelledOnRequest, now)
    case Written(_) => ClosedAs(r, t, Succeeded, Empty, Completed, Empty, now)
    case Raised(text) => if stop then t == r else SettledByFailure(r, t, Faulted, ExecutionFailure(text), now)
    case _ => t == r
  }

  /** The phase after the settlement: a success is first withdrawn or committed, as the flag says; all else is over. */
  function PhaseAfter(flagged: bool, p: Phase): Phase {
    match p
    case Decided(WorkerSucceeded(payload)) => if flagged then Withdrawing else Committed(payload)
    case Decided(_) => Settled
    case Withdrawing => Settled
    case Written(_) => Settled
    case Raised(_) => Settled
    case _ => p
  }

  lemma {:induction false} TableSettles(s: Sys, t: Task)
    requires t.work.id in s.db.records && RecordOk(t.work.id, s.db.records[t.work.id])
    requires s.db.records[t.work.id].work.state.Running? && s.db.records[t.work.id].work.attemptCount == t.attempt
    ensures TouchesOnly(s.db, SettleDb(s, t), t.work.id)
    ensures SettledAs(s.db.records[t.work.id], SettleDb(s, t).records[t.work.id], t, s.stop, s.clock)
  {
    var id := t.work.id;
    var r := s.db.records[id];
    FinishMeaning(s.db, id, t.attempt, s.clock);
    hide RecordOk, SettledByFailure, ClosedAs, FailRecord, FinishSuccess, FinishCancelled;
    match t.phase
    case Decided(StopTimeReached) => FailureSettles(id, r, TimedOut, StopText(t), s.clock);
    case Decided(WorkerFailed(text)) => FailureSettles(id, r, Faulted, WorkerReport(text), s.clock);
    case Raised(text) => FailureSettles(id, r, Faulted, ExecutionFailure(text), s.clock);
    case _ =>
  }

  lemma {:induction false} SettlePlaces(s: Sys, k: nat)
    requires k in s.tasks
    ensures var t := s.tasks[k];
            DoSettle(s, k) == Moved(s, k, PhaseAfter(CancelRequested(s.db, t.work.id), t.phase)).(db := SettleDb(s, t))
  {
    hide FinishFailure, FinishSuccess, FinishCancelled, StopText, CancelRequested;
    assert s.tasks[k := s.tasks[k].(phase := s.tasks[k].phase)] == s.tasks;
  }

  /** Settling ends the attempt as the outcome demands, touches no other Work and moves no other executor. */
  lemma {:induction false} SettlementDecides(s: Sys, k: nat)
    requires Inv(s) && k in s.tasks && !s.tasks[k].phase.Settled?
    ensures var t := Step(s, TaskSettle(k)); var id := s.tasks[k].work.id;
            && id in s.db.records
            && t == Moved(s, k, PhaseAfter(s.db.records[id].work.cancelRequested, s.tasks[k].phase)).(db := t.db)
            && TouchesOnly(s.db, t.db, id)
            && SettledAs(s.db.records[id], t.db.records[id], s.tasks[k], s.stop, s.clock)
  {
    hide Inv, DoSettle, SettleDb, SettledAs, RecordOk, TouchesOnly, PhaseAfter, Moved;
    CarriedFacts(s, k);
    TableSettles(s, s.tasks[k]);
    SettlePlaces(s, k);
  }

  lemma {:induction false} CarriedFacts(s: Sys, k: nat)
    requires Inv(s) && k in s.tasks && !s.tasks[k].phase.Settled?
    ensures var id := s.tasks[k].work.id;
            && id in s.db.records && RecordOk(id, s.db.records[id])
            && s.db.records[id].work.state.Running? && s.db.records[id].work.attemptCount == s.tasks[k].attempt
  {
    hide Exclusive, SchedOk, OwnedOk, HoldersOk, CountersOk, FilesOk, ClientOk, PhaseOk, RecordOk;
    assert Carries(s.db, s.tasks[k]);
  }
}
