/** The attempt ledger, single ownership, termination and recovery, for every run of the system. */
module Lifecycle {
  import opened Basics
  import opened StoreModel
  import opened ResourceModel
  import opened RecordInvariant
  import opened System
  import opened Invariant
  import opened Preservation
  import opened Effects

  lemma {:induction false} Reachable(actions: seq<Action>)
    ensures Inv(Run(INIT, actions))
  {
    InitHolds();
    RunKeeps(INIT, actions);
  }

  /**
   The attempts of a Work are numbered 1 to its attempt count, which never exceeds its limit; all but the last have
   ended without success; the last one decides whether the Work is running or has succeeded.
   */
  lemma {:induction false} AttemptLedger(actions: seq<Action>, id: WorkId)
    requires id in Run(INIT, actions).db.records
    ensures var r := Run(INIT, actions).db.records[id]; var w := r.work;
            && (forall k :: k in r.rows <==> 1 <= k <= w.attemptCount)
            && w.attemptCount <= w.request.maxAttempts
            && (w.state.Queued? ==> w.attemptCount < w.request.maxAttempts)
            && (forall k :: k in r.rows && k != w.attemptCount ==> Ended(r.rows[k]))
            && (w.state.Running? <==> w.attemptCount in r.rows && r.rows[w.attemptCount].state.Active?)
            && (w.state.Succeeded? <==> w.attemptCount in r.rows && r.rows[w.attemptCount].state.Completed?)
            && (w.state.Running? || w.state.Succeeded? ==>
                  && w.selectedEngine == r.rows[w.attemptCount].engine
                  && w.selectedModel == r.rows[w.attemptCount].model)
            && (!w.state.Running? ==> forall k :: k in r.rows ==> r.rows[k].endedAt.Some?)
  {
    Reachable(actions);
    var s := Run(INIT, actions);
    hide Run;
    assert RecordOk(id, s.db.records[id]);
  }

  /**
   No Work has two live executors; a live executor's attempt is the Work's current one, and the Work is running. While
   the Kernel is up and not stopping, every running Work has an executor or is just being launched.
   */
  lemma {:induction false} SingleOwnership(actions: seq<Action>, j: nat, k: nat, id: WorkId)
    ensures var s := Run(INIT, actions);
            && (Owns(s.tasks, j, id) && Owns(s.tasks, k, id) ==> j == k)
            && (Owns(s.tasks, k, id) ==>
                  && id in s.db.records
                  && s.db.records[id].work.state.Running?
                  && s.db.records[id].work.attemptCount == s.tasks[k].attempt
                  && !(s.sched.Begun? && s.sched.work.id == id))
            && (s.up && !s.stop && id in s.db.records && s.db.records[id].work.state.Running? ==>
                  HasOwner(s.tasks, s.sched, id))
  {
    Reachable(actions);
    var s := Run(INIT, actions);
    hide Run, DbOk, HoldersOk, CountersOk, FilesOk, ClientOk, PhaseOk;
    if Owns(s.tasks, k, id) {
      assert Carries(s.db, s.tasks[k]);
    }
  }

  /** The phases in which an executor is about to end its attempt. */
  predicate Finishing(s: Sys, t: Task) {
    match t.phase
    case Decided(outcome) => !outcome.KernelStopped? && !outcome.WorkerSucceeded?
    case Withdrawing => true
    case Written(_) => true
    case Raised(_) => !s.stop
    case _ => false
  }

  /** The effects that end an attempt. */
  predicate Ends(r: Record, e: Effect) {
    || e.SucceedEffect?
    || (e.WithdrawEffect? && r.work.cancelRequested)
    || (e.FailEffect? && (e.state.Faulted? || e.state.TimedOut?))
  }

  /** What such an effect does to the attempts of a running Work. */
  lemma {:induction false} EndsLastAttempt(id: WorkId, r: Record, e: Effect, clock: int)
    requires RecordOk(id, r) && r.work.state.Running? && Ends(r, e)
    ensures var t := Apply(r, e, clock); var n := r.work.attemptCount;
            && !t.work.state.Running?
            && n in r.rows && r.rows[n].state.Active?
            && t.rows.Keys == r.rows.Keys
            && !t.rows[n].state.Active? && t.rows[n].endedAt == Some(clock)
            && (forall k :: k in r.rows && k != n ==> t.rows[k] == r.rows[k])
  {
    hide RowNumbersOk, EarlierRowsEnded, FlagsOk, StartsBeforeDeadline;
  }

  lemma {:induction false} FinishingEnds(s: Sys, t: Task)
    requires Finishing(s, t) && PhaseOk(s.stop, s.db, s.outputs, s.results, t) && t.work.id in s.db.records
    ensures Ends(s.db.records[t.work.id], SettleEffect(s, t))
  {
  }

  /** Exactly attempt `n` of Work `id` ended, exactly that Work stopped running, and nothing else changed. */
  ghost predicate EndsExactly(before: Db, after: Db, id: WorkId, n: int, now: int) {
    && id in before.records && id in after.records
    && (forall other :: other != id && other in before.records ==>
                          other in after.records && after.records[other] == before.records[other])
    && before.records[id].work.state.Running? && !after.records[id].work.state.Running?
    && n in before.records[id].rows && before.records[id].rows[n].state.Active?
    && n in after.records[id].rows && !after.records[id].rows[n].state.Active?
    && after.records[id].rows[n].endedAt == Some(now)
    && (forall m :: m in before.records[id].rows && m != n ==>
                      m in after.records[id].rows && after.records[id].rows[m] == before.records[id].rows[m])
  }

  /** One effect that ends the attempt of a running Work, put into the table. */
  lemma {:induction false} PutEndsExactly(db: Db, id: WorkId, e: Effect, now: int)
    requires id in db.records && RecordOk(id, db.records[id])
    requires db.records[id].work.state.Running? && Ends(db.records[id], e)
    ensures EndsExactly(db, Put(db, id, Apply(db.records[id], e, now)), id, db.records[id].work.attemptCount, now)
  {
    EndsLastAttempt(id, db.records[id], e, now);
    hide RecordOk, Ends, Apply;
  }

  lemma {:induction false} FinishingSettles(s: Sys, t: Task)
    requires Finishing(s, t) && Carries(s.db, t) && PhaseOk(s.stop, s.db, s.outputs, s.results, t)
    requires RecordOk(t.work.id, s.db.records[t.work.id])
    ensures EndsExactly(s.db, SettleDb(s, t), t.work.id, t.attempt, s.clock)
  {
    FinishingEnds(s, t);
    SettleEffectIs(s, t);
    PutEndsExactly(s.db, t.work.id, SettleEffect(s, t), s.clock);
    hide EndsExactly, Apply, RecordOk, PhaseOk, Finishing;
  }

  /**
   Although the Work update names no attempt, a finishing executor ends exactly the attempt it began, moves exactly its
   own Work out of RUNNING, and touches no other Work and no other attempt.
   */
  lemma {:induction false} FinishHitsOwnAttempt(actions: seq<Action>, k: nat)
    requires k in Run(INIT, actions).tasks && Finishing(Run(INIT, actions), Run(INIT, actions).tasks[k])
    ensures var s := Run(INIT, actions); var t := s.tasks[k];
            EndsExactly(s.db, SettleDb(s, t), t.work.id, t.attempt, s.clock)
  {
    Reachable(actions);
    hide Run, EndsExactly, SettleDb, PhaseOk, RecordOk;
    FinishingSettles(Run(INIT, actions), Run(INIT, actions).tasks[k]);
  }

  /** So does the scheduler when it fails the attempt whose executor it could not launch. */
  lemma {:induction false} FailedLaunchHitsOwnAttempt(actions: seq<Action>, why: Bytes)
    requires Run(INIT, actions).sched.Begun?
    ensures var s := Run(INIT, actions);
            EndsExactly(s.db, DoLaunch(s, false, why).db, s.sched.work.id, s.sched.attempt, s.clock)
  {
    Reachable(actions);
    var s := Run(INIT, actions);
    hide Run, EndsExactly, RecordOk;
    assert Carries(s.db, Task(s.sched.work, s.sched.attempt, s.sched.startedAt, Launched));
    PutEndsExactly(s.db, s.sched.work.id, FailEffect(Faulted, LaunchFailure(why)), s.clock);
  }

  /**
   What a failure leaves of a running Work. A cancel request comes before everything; otherwise the Work is retried
   exactly when it has an attempt left and the retry would begin before its deadline; otherwise it has failed.
   */
  ghost predicate SettledByFailure(r: Record, t: Record, state: AttemptState, text: Diagnosis, now: int) {
    var w, v, n := r.work, t.work, r.work.attemptCount;
    && (v.state.Cancelled? <==> w.cancelRequested)
    && (v.state.Queued? <==>
          && !w.cancelRequested
          && w.attemptCount < w.request.maxAttempts
          && (w.request.deadline.None? || now + w.request.retryDelay < w.request.deadline.value))
    && (v.state.Queued? || v.state.Cancelled? || v.state.Failed?)
    && v.technicalFailure == (if v.state.Cancelled? then CancelledOnRequest else text)
    && (v.state.Queued? ==>
          v.nextAttemptAt == now + w.request.retryDelay && v.selectedEngine == [] && v.selectedModel == [])
    && v.request == w.request && v.attemptCount == w.attemptCount && v.cancelRequested == w.cancelRequested
    && n in r.rows
    && t.rows == r.rows[n := r.rows[n].(state := state, endedAt := Some(now), technicalFailure := text)]
  }

  /** The settlement of a failed attempt, stated without the statements that perform it. */
  lemma {:induction false} FailureSettles(id: WorkId, r: Record, state: AttemptState, text: Diagnosis, now: int)
    requires RecordOk(id, r) && r.work.state.Running?
    ensures SettledByFailure(r, FailRecord(r, r.work.attemptCount, state, text, now), state, text, now)
  {
    hide StartsBeforeDeadline, FlagsOk, EarlierRowsEnded;
  }

  /** `begin_attempt` never meets an attempt row that is already there, although it does not look. */
  lemma {:induction false} BeginNeverConflicts(actions: seq<Action>, id: WorkId)
    ensures !BeginResult(Run(INIT, actions).db, id).KeyConflict?
  {
    Reachable(actions);
    if id in Run(INIT, actions).db.records {
      AdmittedIsNew(Run(INIT, actions), id);
    }
  }

  // Termination

  predicate StateChanges(s: Sys, t: Sys, id: WorkId) {
    id in s.db.records && id in t.db.records && s.db.records[id].work.state != t.db.records[id].work.state
  }

  /** How many steps of a run change the state of one Work. */
  ghost function Changes(s: Sys, actions: seq<Action>, id: WorkId): nat
    decreases |actions|
  {
    if actions == [] then 0
    else
      (if StateChanges(s, Step(s, actions[0]), id) then 1 else 0) + Changes(Step(s, actions[0]), actions[1..], id)
  }

  ghost function Remaining(s: Sys, id: WorkId): int {
    if id in s.db.records then Measure(s.db.records[id].work) else 0
  }

  lemma {:induction false} ChangesFrom(s: Sys, actions: seq<Action>, id: WorkId)
    requires Inv(s)
    ensures id in s.db.records ==>
              && id in Run(s, actions).db.records
              && Run(s, actions).db.records[id].work.request == s.db.records[id].work.request
              && Changes(s, actions, id) + Remaining(Run(s, actions), id) <= Remaining(s, id)
    ensures id !in s.db.records && id in Run(s, actions).db.records ==>
              Changes(s, actions, id) + Remaining(Run(s, actions), id) <=
                2 * Run(s, actions).db.records[id].work.request.maxAttempts
    ensures id !in Run(s, actions).db.records ==> Changes(s, actions, id) == 0
    decreases |actions|
  {
    if actions != [] {
      var t := Step(s, actions[0]);
      StepKeeps(s, actions[0]);
      hide Step, Inv;
      ChangesFrom(t, actions[1..], id);
      if id in s.db.records {
        assert Progress(s.db.records[id], t.db.records[id]);
      } else if id in t.db.records {
        StepInserts(s, actions[0], id);
      }
    }
  }

  lemma {:induction false} MeasureIsNatural(s: Sys, id: WorkId)
    requires Inv(s)
    ensures Remaining(s, id) >= 0
  {
    if id in s.db.records {
      assert RecordOk(id, s.db.records[id]);
    }
  }

  /** In any run, restarts included, a Work changes state at most twice as often as it may be attempted. */
  lemma {:induction false} Termination(actions: seq<Action>, id: WorkId)
    requires id in Run(INIT, actions).db.records
    ensures Changes(INIT, actions, id) <= 2 * Run(INIT, actions).db.records[id].work.request.maxAttempts
  {
    InitHolds();
    ChangesFrom(INIT, actions, id);
    Reachable(actions);
    MeasureIsNatural(Run(INIT, actions), id);
  }

  /** Nothing leaves a terminal state, and no attempt starts there. */
  lemma {:induction false} TerminalIsAbsorbing(s: Sys, actions: seq<Action>, id: WorkId)
    requires Inv(s) && id in s.db.records
    requires var state := s.db.records[id].work.state; state.Succeeded? || state.Failed? || state.Cancelled?
    ensures id in Run(s, actions).db.records
    ensures Run(s, actions).db.records[id].work.state == s.db.records[id].work.state
    ensures Run(s, actions).db.records[id].work.attemptCount == s.db.records[id].work.attemptCount
    decreases |actions|
  {
    if actions != [] {
      var t := Step(s, actions[0]);
      StepKeeps(s, actions[0]);
      hide Step, Inv;
      assert Progress(s.db.records[id], t.db.records[id]);
      TerminalIsAbsorbing(t, actions[1..], id);
    }
  }

  // Recovery

  /**
   How recovery settles one record: a running Work is cancelled if that was requested, and otherwise queued again while
   it has attempts and time left; its last attempt is closed as interrupted, and everything else stays.
   */
  ghost predicate SettledByRecovery(r: Record, t: Record, now: int) {
    var w, v, n := r.work, t.work, r.work.attemptCount;
    && !v.state.Running?
    && (forall k :: k in t.rows ==> !t.rows[k].state.Active?)
    && (!w.state.Running? ==> t == r)
    && (w.state.Running? ==>
          && n in r.rows
          && t.rows == r.rows[n := r.rows[n].(state := Interrupted, endedAt := Some(now), technicalFailure := KernelRestarted)]
          && (v.state.Cancelled? <==> w.cancelRequested)
          && (v.state.Queued? <==>
                && !w.cancelRequested
                && w.attemptCount < w.request.maxAttempts
                && (w.request.deadline.None? || now + w.request.retryDelay < w.request.deadline.value))
          && (v.state.Queued? || v.state.Cancelled? || v.state.Failed?)
          && v.technicalFailure == (if v.state.Cancelled? then CancelledBeforeRecovery else KernelRestarted)
          && (v.state.Queued? ==>
                v.nextAttemptAt == now + w.request.retryDelay && v.selectedEngine == [] && v.selectedModel == [])
          && v.request == w.request && v.attemptCount == n && v.cancelRequested == w.cancelRequested)
  }

  lemma {:induction false} RecoverySettles(id: WorkId, r: Record, now: int)
    requires RecordOk(id, r)
    ensures SettledByRecovery(r, RecoverRecord(r, now), now)
  {
    hide StartsBeforeDeadline, FlagsOk;
  }

  lemma {:induction false} RecoverTwice(db: Db, now: int, again: int)
    requires forall id :: id in Recover(db, now).records ==> !Recover(db, now).records[id].work.state.Running?
    ensures Recover(Recover(db, now), again) == Recover(db, now)
  {
    hide AfterFailure, EndRow;
    assert Recover(Recover(db, now), again).records == Recover(db, now).records;
  }

  /**
   Restart recovery from the state that any run left behind: no Work and no attempt is left running, queued and
   terminal Works are untouched, running ones are settled as their cancel flag and retry budget say, the invariant
   holds again, and recovering once more changes nothing.
   */
  lemma {:induction false} Recovery(actions: seq<Action>, now: int, again: int, id: WorkId)
    ensures var before := Run(INIT, actions).db; var after := Recover(before, now);
            && DbOk(after) && DbProgress(before, after)
            && after.records.Keys == before.records.Keys
            && Recover(after, again) == after
            && (id in before.records ==> SettledByRecovery(before.records[id], after.records[id], now))
  {
    Reachable(actions);
    var s := Run(INIT, actions);
    hide Run, TasksOk, Exclusive, SchedOk, OwnedOk, HoldersOk, CountersOk, FilesOk, ClientOk, RecordOk, DbProgress,
         SettledByRecovery, RecoverRecord;
    RecoverKeepsTable(s.db, s.inputs, s.results, s.outputs, now);
    RecoverTwice(s.db, now, again);
    if id in s.db.records {
      RecoverySettles(id, s.db.records[id], now);
    }
  }
}
