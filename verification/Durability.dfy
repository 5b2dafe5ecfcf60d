/** Inputs and results on disk, over every run and across crashes. */
module Durability {
  import opened Basics
  import opened StoreModel
  import opened ResourceModel
  import opened Selection
  import opened RecordInvariant
  import opened System
  import opened Invariant
  import opened Preservation
  import opened Effects
  import opened Lifecycle

  predicate AcknowledgedIn(s: Sys, id: WorkId) {
    id in s.db.records && s.db.records[id].work.acknowledged
  }

  /**
   A result is available exactly when the Work has succeeded and has not been acknowledged; it is the payload that the
   worker returned for the one attempt that completed. The input is there until the acknowledgement.
   */
  lemma {:induction false} ResultIsDurable(actions: seq<Action>, id: WorkId)
    requires id in Run(INIT, actions).db.records
    ensures var s := Run(INIT, actions); var r := s.db.records[id]; var n := r.work.attemptCount;
            && (ResultAvailable(s, id) <==> r.work.state.Succeeded? && !r.work.acknowledged)
            && (ResultAvailable(s, id) ==>
                  && n in r.rows && r.rows[n].state.Completed?
                  && (forall k :: k in r.rows && r.rows[k].state.Completed? ==> k == n)
                  && (id, n) in s.outputs && s.results[id] == s.outputs[(id, n)])
            && (!r.work.acknowledged ==> id in s.inputs)
  {
    Reachable(actions);
    var s := Run(INIT, actions);
    hide Run, TasksOk, Exclusive, SchedOk, OwnedOk, HoldersOk, CountersOk, ClientOk;
    AttemptLedger(actions, id);
    assert ResultOk(s.results, s.outputs, id, s.db.records[id].work);
  }

  // Files, and the record of what workers returned, change only in a few steps

  datatype Disk = Disk(inputs: Files, results: Files, outputs: Outputs)

  function DiskOf(s: Sys): Disk {
    Disk(s.inputs, s.results, s.outputs)
  }

  lemma {:induction false} TaskDisk(s: Sys, k: nat, readable: bool, why: Bytes)
    ensures DiskOf(DoStart(s, k, readable, why)) == DiskOf(s)
    ensures DiskOf(DoThrow(s, k, why)) == DiskOf(s)
  {
  }

  /** The key of an executor's attempt. */
  function AttemptOf(t: Task): (WorkId, int) {
    (t.work.id, t.attempt)
  }

  /** Executor `k` learns in this step that its worker succeeded with `payload`. */
  predicate Learns(s: Sys, t: Sys, k: nat, payload: Bytes) {
    && k in s.tasks && s.tasks[k].phase.Executing?
    && k in t.tasks && t.tasks[k].phase == Decided(WorkerSucceeded(payload))
  }

  lemma {:induction false} DecideDisk(s: Sys, k: nat, outcome: Outcome)
    ensures var t := DoDecide(s, k, outcome);
            && t.inputs == s.inputs && t.results == s.results
            && forall key :: key in t.outputs ==>
                 || (key in s.outputs && t.outputs[key] == s.outputs[key])
                 || (Learns(s, t, k, t.outputs[key]) && key == AttemptOf(s.tasks[k]))
  {
    hide Observable;
  }

  lemma {:induction false} SettleDisk(s: Sys, k: nat)
    ensures DiskOf(DoSettle(s, k)) == DiskOf(s)
  {
    hide SettleDb, CancelRequested, MoveTask;
    if k in s.tasks {
      MoveDisk(s, k, Settled);
      if s.tasks[k].phase.Decided? && s.tasks[k].phase.outcome.WorkerSucceeded? {
        MoveDisk(s, k, Withdrawing);
        MoveDisk(s, k, Committed(s.tasks[k].phase.outcome.payload));
      }
    }
  }

  lemma {:induction false} MoveDisk(s: Sys, k: nat, p: Phase)
    requires k in s.tasks
    ensures DiskOf(MoveTask(s, k, p)) == DiskOf(s)
  {
  }

  lemma {:induction false} AdmitDisk(s: Sys)
    ensures DiskOf(DoAdmit(s)) == DiskOf(s)
  {
    hide Select, AfterReserve, Decide, CanEverReserve, DeadlineReached, Reject;
    if s.sched.Picked? && !DeadlineReached(s.sched.work.request, s.sched.now) {
      match Select(s.sched.work.request, s.inventory)
      case NoMatch(stage) =>
      case Chosen(engine, model) =>
        if CanEverReserve(s.capacity, engine.resources) {
          if Decide(s.capacity, s.usage, engine.resources).Granted? {
          }
        }
    }
  }

  lemma {:induction false} BeginDisk(s: Sys)
    ensures DiskOf(DoBegin(s)) == DiskOf(s)
  {
    hide DeadlineReached, Reject, BeginAttempt, BeginResult;
    if s.sched.Admitted? && !DeadlineReached(s.sched.work.request, s.clock) {
      match BeginResult(s.db, s.sched.work.id)
      case Began(n) =>
      case Lost =>
      case KeyConflict =>
    }
  }

  lemma {:induction false} ScanDisk(s: Sys)
    ensures DiskOf(DoWake(s)) == DiskOf(s)
    ensures DiskOf(DoSweep(s)) == DiskOf(s)
    ensures DiskOf(DoPick(s)) == DiskOf(s)
  {
    hide NextEligible, Expire;
  }

  lemma {:induction false} LaunchDisk(s: Sys, ok: bool, why: Bytes)
    ensures DiskOf(DoLaunch(s, ok, why)) == DiskOf(s)
    ensures DiskOf(DoReturn(s)) == DiskOf(s)
  {
    hide AfterRelease, FinishFailure;
  }

  lemma {:induction false} OtherDisk(s: Sys, a: Action)
    requires !a.TaskWrite? && !a.RemoveResult? && !a.RemoveInput? && !a.WriteInput? && !a.TaskDecide?
    ensures DiskOf(Step(s, a)) == DiskOf(s)
  {
    hide DoStart, DoDecide, DoThrow, DoSettle, DoAdmit, DoBegin, AfterRelease, Cancel, Acknowledge, Submit,
         ValidConfiguration, Recover, AcknowledgeSucceeds, DoWrite, DoRemoveInput, DoRemoveResult, DoWriteInput, DoWake,
         DoSweep, DoPick, DoLaunch, DoReturn;
    match a
    case SchedWake => ScanDisk(s);
    case SchedSweep => ScanDisk(s);
    case SchedPick => ScanDisk(s);
    case SchedLaunch(ok, why) => LaunchDisk(s, ok, why);
    case SchedReturn => LaunchDisk(s, true, []);
    case TaskStart(k, readable, why) => TaskDisk(s, k, readable, why);
    case TaskThrow(k, why) => TaskDisk(s, k, true, why);
    case TaskSettle(k) => SettleDisk(s, k);
    case SchedAdmit => AdmitDisk(s);
    case SchedBegin => BeginDisk(s);
    case _ =>
  }

  /** No step rewrites or removes the result of a succeeded Work before its acknowledgement. */
  lemma {:induction false} ResultStep(s: Sys, a: Action, id: WorkId)
    requires Inv(s) && ResultAvailable(s, id)
    ensures id in Step(s, a).results && Step(s, a).results[id] == s.results[id]
  {
    hide DbOk, Exclusive, SchedOk, OwnedOk, HoldersOk, CountersOk, FilesOk, PhaseOk;
    if a.TaskWrite? || a.RemoveResult? || a.RemoveInput? || a.WriteInput? {
      hide NewWork;
    } else if a.TaskDecide? {
      DecideDisk(s, a.task, a.outcome);
      hide TasksOk, DoDecide;
    } else {
      hide TasksOk;
      OtherDisk(s, a);
      hide Step;
    }
  }

  /** No step rewrites an input, and only an acknowledged Work loses its own. */
  lemma {:induction false} InputStep(s: Sys, a: Action, id: WorkId)
    requires Inv(s) && id in s.inputs
    ensures if id in Step(s, a).inputs then Step(s, a).inputs[id] == s.inputs[id] else AcknowledgedIn(s, id)
  {
    hide DbOk, TasksOk, Exclusive, SchedOk, OwnedOk, HoldersOk, CountersOk, FilesOk;
    if a.TaskWrite? || a.RemoveResult? || a.RemoveInput? || a.WriteInput? {
      hide NewWork;
    } else if a.TaskDecide? {
      DecideDisk(s, a.task, a.outcome);
      hide DoDecide;
    } else {
      OtherDisk(s, a);
      hide Step;
    }
  }

  /** What a worker returned for an attempt is recorded when its executor learns it, and is not changed otherwise. */
  lemma {:induction false} OutputStep(s: Sys, a: Action, key: (WorkId, int))
    requires key in Step(s, a).outputs
    ensures var t := Step(s, a);
            || (key in s.outputs && t.outputs[key] == s.outputs[key])
            || exists k :: Learns(s, t, k, t.outputs[key]) && key == AttemptOf(s.tasks[k])
  {
    if a.TaskDecide? {
      DecideDisk(s, a.task, a.outcome);
      hide DoDecide;
      var t := Step(s, a);
      assert (key in s.outputs && t.outputs[key] == s.outputs[key]) || Learns(s, t, a.task, t.outputs[key]);
    } else if a.TaskWrite? || a.RemoveResult? || a.RemoveInput? || a.WriteInput? {
      hide NewWork;
    } else {
      OtherDisk(s, a);
      hide Step;
    }
  }

  lemma {:induction false} AcknowledgedStays(s: Sys, a: Action, id: WorkId)
    requires Inv(s) && AcknowledgedIn(s, id)
    ensures AcknowledgedIn(Step(s, a), id)
  {
    StepKeeps(s, a);
    hide Step, Inv;
    assert Progress(s.db.records[id], Step(s, a).db.records[id]);
  }

  lemma {:induction false} AvailableStays(s: Sys, a: Action, id: WorkId)
    requires Inv(s) && ResultAvailable(s, id) && !AcknowledgedIn(Step(s, a), id)
    ensures ResultAvailable(Step(s, a), id)
  {
    StepKeeps(s, a);
    ResultStep(s, a, id);
    var t := Step(s, a);
    hide Step, Inv;
    assert Progress(s.db.records[id], t.db.records[id]);
  }

  /** An available result stays available and unchanged, over crashes and restarts, until it is acknowledged. */
  lemma {:induction false} ResultIsStable(s: Sys, actions: seq<Action>, id: WorkId)
    requires Inv(s) && ResultAvailable(s, id)
    ensures var t := Run(s, actions);
            AcknowledgedIn(t, id) || (ResultAvailable(t, id) && t.results[id] == s.results[id])
    decreases |actions|
  {
    if actions != [] {
      var t := Step(s, actions[0]);
      StepKeeps(s, actions[0]);
      if AcknowledgedIn(t, id) {
        AcknowledgedForever(t, actions[1..], id);
      } else {
        AvailableStays(s, actions[0], id);
        ResultStep(s, actions[0], id);
        ResultIsStable(t, actions[1..], id);
      }
    }
  }

  /** A written input stays unchanged until its Work is acknowledged. */
  lemma {:induction false} InputIsStable(s: Sys, actions: seq<Action>, id: WorkId)
    requires Inv(s) && id in s.inputs
    ensures var t := Run(s, actions); AcknowledgedIn(t, id) || (id in t.inputs && t.inputs[id] == s.inputs[id])
    decreases |actions|
  {
    if actions != [] {
      var t := Step(s, actions[0]);
      StepKeeps(s, actions[0]);
      InputStep(s, actions[0], id);
      if id in t.inputs {
        InputIsStable(t, actions[1..], id);
      } else {
        AcknowledgedForever(s, actions, id);
      }
    }
  }

  /** How many acknowledgements of one Work a run accepts. */
  ghost function Acks(s: Sys, actions: seq<Action>, id: WorkId): nat
    decreases |actions|
  {
    if actions == [] then 0
    else
      (if actions[0] == AcknowledgeWork(id) && AcknowledgeSucceeds(s, id) then 1 else 0)
      + Acks(Step(s, actions[0]), actions[1..], id)
  }

  /** After an acknowledgement no other one succeeds and no result is available. */
  lemma {:induction false} AcknowledgedForever(s: Sys, actions: seq<Action>, id: WorkId)
    requires Inv(s) && AcknowledgedIn(s, id)
    ensures AcknowledgedIn(Run(s, actions), id) && !ResultAvailable(Run(s, actions), id)
    ensures Acks(s, actions, id) == 0
    decreases |actions|
  {
    if actions != [] {
      StepKeeps(s, actions[0]);
      AcknowledgedStays(s, actions[0], id);
      AcknowledgedForever(Step(s, actions[0]), actions[1..], id);
    }
  }

  lemma {:induction false} AcknowledgeIsSeen(s: Sys, id: WorkId)
    requires AcknowledgeSucceeds(s, id)
    ensures AcknowledgedIn(Step(s, AcknowledgeWork(id)), id)
  {
  }

  /** Over any run a Work is acknowledged at most once. */
  lemma {:induction false} AcknowledgedOnce(s: Sys, actions: seq<Action>, id: WorkId)
    requires Inv(s)
    ensures Acks(s, actions, id) <= 1
    decreases |actions|
  {
    if actions != [] {
      var t := Step(s, actions[0]);
      StepKeeps(s, actions[0]);
      if actions[0] == AcknowledgeWork(id) && AcknowledgeSucceeds(s, id) {
        AcknowledgeIsSeen(s, id);
        AcknowledgedForever(t, actions[1..], id);
      } else {
        AcknowledgedOnce(t, actions[1..], id);
      }
    }
  }
}
