/** Cancellation is sticky, and only a success that was already committed to can win against it. */
module Cancellation {
  import opened Basics
  import opened StoreModel
  import opened ResourceModel
  import opened Selection
  import opened RecordInvariant
  import opened System
  import opened Invariant
  import opened Preservation
  import opened Effects
  import opened Movements
  import opened Lifecycle

  predicate Requested(s: Sys, id: WorkId) {
    CancelRequested(s.db, id)
  }

  /** A Work with a cancel request is running, succeeded or cancelled; a cancelled one always has a request. */
  lemma {:induction false} CancelStates(actions: seq<Action>, id: WorkId)
    requires id in Run(INIT, actions).db.records
    ensures var w := Run(INIT, actions).db.records[id].work;
            && (w.cancelRequested ==> w.state.Running? || w.state.Succeeded? || w.state.Cancelled?)
            && (w.state.Cancelled? ==> w.cancelRequested)
  {
    Reachable(actions);
    hide Run;
    assert RecordOk(id, Run(INIT, actions).db.records[id]);
  }

  lemma {:induction false} RequestStep(s: Sys, a: Action, id: WorkId)
    requires Inv(s) && Requested(s, id)
    ensures Inv(Step(s, a)) && Requested(Step(s, a), id)
    ensures Step(s, a).db.records[id].work.attemptCount == s.db.records[id].work.attemptCount
    ensures !s.db.records[id].work.state.Queued? && !s.db.records[id].work.state.Running? ==>
              Step(s, a).db.records[id].work.state == s.db.records[id].work.state
  {
    StepKeeps(s, a);
    hide Step, Inv;
    assert Progress(s.db.records[id], Step(s, a).db.records[id]);
  }

  /** Over any run, restarts included, a cancel request is never cleared and no further attempt starts. */
  lemma {:induction false} CancelIsSticky(s: Sys, actions: seq<Action>, id: WorkId)
    requires Inv(s) && Requested(s, id)
    ensures Requested(Run(s, actions), id)
    ensures Run(s, actions).db.records[id].work.attemptCount == s.db.records[id].work.attemptCount
    ensures Inv(Run(s, actions))
    decreases |actions|
  {
    if actions != [] {
      RequestStep(s, actions[0], id);
      CancelIsSticky(Step(s, actions[0]), actions[1..], id);
    }
  }

  /** The executor has read the cancel flag for the last time and goes on to write and record its success. */
  predicate CommittedPhase(p: Phase) {
    p.Committed? || p.Written?
  }

  /** No executor of the Work has committed to a success, and the Work has not succeeded. */
  ghost predicate Revocable(s: Sys, id: WorkId) {
    && id in s.db.records
    && !s.db.records[id].work.state.Succeeded?
    && forall k :: Owns(s.tasks, k, id) ==> !CommittedPhase(s.tasks[k].phase)
  }

  /** An executor commits only when it reads the flag unset. */
  lemma {:induction false} CommitStep(s: Sys, a: Action, k: nat)
    requires k in Step(s, a).tasks && CommittedPhase(Step(s, a).tasks[k].phase)
    ensures k in s.tasks && Step(s, a).tasks[k].work == s.tasks[k].work
    ensures CommittedPhase(s.tasks[k].phase) || (s.tasks[k].phase.Decided? && !Requested(s, s.tasks[k].work.id))
  {
    if a.SchedLaunch? {
      LaunchSteps(s, a.ok, a.why, k);
      hide DoLaunch;
    } else {
      TaskSteps(s, a, k);
      hide Step;
    }
  }

  lemma {:induction false} Uncommitted(s: Sys, id: WorkId, k: nat)
    requires Revocable(s, id)
    ensures Owns(s.tasks, k, id) ==> !CommittedPhase(s.tasks[k].phase)
  {
  }

  lemma {:induction false} RevocableStep(s: Sys, a: Action, id: WorkId)
    requires Inv(s) && Requested(s, id) && Revocable(s, id)
    ensures Revocable(Step(s, a), id)
  {
    RequestStep(s, a, id);
    var e := StepEffect(s, a, id);
    var t := Step(s, a);
    forall k | Owns(t.tasks, k, id)
      ensures !CommittedPhase(t.tasks[k].phase)
    {
      Uncommitted(s, id, k);
      if CommittedPhase(t.tasks[k].phase) {
        CommitStep(s, a, k);
        hide Step, Inv, Revocable;
        assert false;
      }
    }
    hide Step, Inv;
    NoSuccess(s, a, id, t, e);
  }

  lemma {:induction false} NoSuccess(s: Sys, a: Action, id: WorkId, t: Sys, e: Effect)
    requires Revocable(s, id) && Explains(s, a, id, t, e)
    ensures !t.db.records[id].work.state.Succeeded?
  {
  }

  /**
   Once a cancel request is set and no executor has committed, the Work never succeeds in any run: it stays running
   until it is cancelled.
   */
  lemma {:induction false} CancelWins(s: Sys, actions: seq<Action>, id: WorkId)
    requires Inv(s) && Requested(s, id) && Revocable(s, id)
    ensures id in Run(s, actions).db.records
    ensures var w := Run(s, actions).db.records[id].work; w.state.Running? || w.state.Cancelled?
    decreases |actions|
  {
    if actions == [] {
      assert RecordOk(id, s.db.records[id]);
    } else {
      RequestStep(s, actions[0], id);
      RevocableStep(s, actions[0], id);
      CancelWins(Step(s, actions[0]), actions[1..], id);
    }
  }

  lemma {:induction false} WriteCommitted(s: Sys, k: nat, payload: Bytes)
    requires k in s.tasks && s.tasks[k].phase == Committed(payload)
    ensures var t := Step(s, TaskWrite(k));
            && t.db == s.db && k in t.tasks
            && t.tasks[k].phase == Written(payload) && t.tasks[k].work == s.tasks[k].work
  {
  }

  lemma {:induction false} SettleSucceeds(s: Sys, k: nat)
    requires k in s.tasks && s.tasks[k].phase.Written? && s.tasks[k].work.id in s.db.records
    requires s.db.records[s.tasks[k].work.id].work.state.Running?
    ensures var id := s.tasks[k].work.id; var t := Step(s, TaskSettle(k));
            && id in t.db.records && t.db.records[id].work.state.Succeeded?
            && t.db.records[id].work.cancelRequested == s.db.records[id].work.cancelRequested
  {
  }

  predicate SucceededIn(s: Sys, id: WorkId) {
    id in s.db.records && s.db.records[id].work.state.Succeeded?
  }

  /** A committed executor can always finish, whether or not a cancel request came in meanwhile. */
  lemma {:induction false} CommitCanFinish(s: Sys, k: nat) returns (actions: seq<Action>)
    requires Inv(s) && k in s.tasks && CommittedPhase(s.tasks[k].phase)
    ensures SucceededIn(Run(s, actions), s.tasks[k].work.id)
  {
    var id := s.tasks[k].work.id;
    hide DbOk, Exclusive, SchedOk, OwnedOk, HoldersOk, CountersOk, FilesOk, ClientOk, PhaseOk, Step;
    assert Carries(s.db, s.tasks[k]);
    hide TasksOk;
    actions := [TaskSettle(k)];
    var t := s;
    if s.tasks[k].phase.Committed? {
      actions := [TaskWrite(k), TaskSettle(k)];
      WriteCommitted(s, k, s.tasks[k].phase.payload);
      t := Step(s, TaskWrite(k));
      assert Run(s, actions) == Run(t, [TaskSettle(k)]) by {
        assert actions[1..] == [TaskSettle(k)];
      }
    }
    SettleSucceeds(t, k);
    assert [TaskSettle(k)][1..] == [];
    assert Run(t, [TaskSettle(k)]) == Step(t, TaskSettle(k));
  }

  /**
   Exactly when a pending cancel request can still lose: some run from here ends with the Work succeeded if and only if
   an executor of it has already committed.
   */
  lemma {:induction false} CancelLosesOnlyToCommit(s: Sys, id: WorkId)
    requires Inv(s) && Requested(s, id) && !SucceededIn(s, id)
    ensures (exists actions :: SucceededIn(Run(s, actions), id)) <==>
              (exists k :: Owns(s.tasks, k, id) && CommittedPhase(s.tasks[k].phase))
  {
    if k :| Owns(s.tasks, k, id) && CommittedPhase(s.tasks[k].phase) {
      var actions := CommitCanFinish(s, k);
    } else {
      hide Inv, Run;
      forall actions
        ensures !SucceededIn(Run(s, actions), id)
      {
        CancelWins(s, actions, id);
      }
    }
  }

  // Restart

  lemma {:induction false} DownStep(s: Sys, a: Action, id: WorkId)
    requires Inv(s) && !s.up && Requested(s, id)
    ensures var t := Step(s, a);
            && id in t.db.records
            && (if t.up then t.db.records[id] == RecoverRecord(s.db.records[id], s.clock)
                else t.db.records[id] == s.db.records[id])
  {
    hide DbOk, TasksOk, Exclusive, SchedOk, OwnedOk, HoldersOk, CountersOk, FilesOk, ClientOk, RecoverRecord,
         ValidConfiguration;
    if !a.Start? {
      DownIdle(s, a);
      hide Step;
    }
  }

  /** While the process is down only a restart does anything to the table. */
  lemma {:induction false} DownIdle(s: Sys, a: Action)
    requires DownOk(s.up, s.stop, s.tasks, s.sched, s.client) && !s.up && !a.Start?
    ensures Step(s, a).db == s.db && !Step(s, a).up
  {
    hide NextEligible, DoBoot;
  }

  /** A restart cancels every Work with a pending cancel request, whatever happens before and after it. */
  lemma {:induction false} RestartCancels(s: Sys, actions: seq<Action>, id: WorkId)
    requires Inv(s) && !s.up && Requested(s, id) && !s.db.records[id].work.state.Succeeded?
    requires Run(s, actions).up
    ensures id in Run(s, actions).db.records && Run(s, actions).db.records[id].work.state.Cancelled?
    decreases |actions|
  {
    assert actions != [];
    var t := Step(s, actions[0]);
    RequestStep(s, actions[0], id);
    DownStep(s, actions[0], id);
    assert RecordOk(id, s.db.records[id]);
    hide Step, Inv;
    if t.up {
      TerminalIsAbsorbing(t, actions[1..], id);
    } else {
      RestartCancels(t, actions[1..], id);
    }
  }
}
