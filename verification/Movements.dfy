/** How one step moves the executors and the scheduler, whatever the action. */
module Movements {
  import opened Basics
  import opened StoreModel
  import opened ResourceModel
  import opened Selection
  import opened System
  import opened Invariant

  /** The transitions of an executor. */
  predicate PhaseStep(s: Sys, t: Task, p: Phase) {
    || p == t.phase
    || match t.phase
       case Launched => p.Settled? || p.Executing? || p.Raised?
       case Executing => p.Raised? || (p.Decided? && Observable(s, t, p.outcome))
       case Decided(WorkerSucceeded(payload)) =>
         p == if CancelRequested(s.db, t.work.id) then Withdrawing else Committed(payload)
       case Committed(payload) => p.Raised? || p == Written(payload)
       case _ => p.Settled?
  }

  /** An executor of the later state is one of the earlier state that made a transition. */
  predicate Stepped(s: Sys, tasks: Tasks, k: nat) {
    k in tasks ==>
      k in s.tasks && tasks[k] == s.tasks[k].(phase := tasks[k].phase) && PhaseStep(s, s.tasks[k], tasks[k].phase)
  }

  lemma {:induction false} MoveSteps(s: Sys, j: nat, p: Phase, k: nat)
    requires j in s.tasks && PhaseStep(s, s.tasks[j], p)
    ensures Stepped(s, MoveTask(s, j, p).tasks, k)
  {
    hide Observable, CancelRequested;
  }

  lemma {:induction false} RestSteps(s: Sys, k: nat)
    ensures Stepped(s, s.tasks, k)
  {
    hide Observable, CancelRequested;
  }

  lemma {:induction false} StartSteps(s: Sys, j: nat, readable: bool, why: Bytes, k: nat)
    ensures Stepped(s, DoStart(s, j, readable, why).tasks, k)
  {
    RestSteps(s, k);
    hide Stepped;
    if j in s.tasks && s.tasks[j].phase.Launched? {
      MoveSteps(s, j, Settled, k);
      MoveSteps(s, j, Executing, k);
      MoveSteps(s, j, Raised(why), k);
    }
  }

  lemma {:induction false} DecideSteps(s: Sys, j: nat, outcome: Outcome, k: nat)
    ensures Stepped(s, DoDecide(s, j, outcome).tasks, k)
  {
    RestSteps(s, k);
    hide Stepped, Observable;
    if j in s.tasks && s.tasks[j].phase.Executing? && Observable(s, s.tasks[j], outcome) {
      MoveSteps(s, j, Decided(outcome), k);
    }
  }

  lemma {:induction false} ThrowSteps(s: Sys, j: nat, why: Bytes, k: nat)
    ensures Stepped(s, DoThrow(s, j, why).tasks, k)
  {
    RestSteps(s, k);
    hide Stepped;
    if j in s.tasks && (s.tasks[j].phase.Executing? || s.tasks[j].phase.Committed?) {
      MoveSteps(s, j, Raised(why), k);
    }
  }

  lemma {:induction false} WriteSteps(s: Sys, j: nat, k: nat)
    ensures Stepped(s, DoWrite(s, j).tasks, k)
  {
    RestSteps(s, k);
    hide Stepped;
    if j in s.tasks && s.tasks[j].phase.Committed? {
      MoveSteps(s, j, Written(s.tasks[j].phase.payload), k);
    }
  }

  lemma {:induction false} ExitSteps(s: Sys, j: nat, k: nat)
    ensures Stepped(s, DoExit(s, j).tasks, k)
  {
    RestSteps(s, k);
    hide PhaseStep, AfterRelease;
  }

  /** The phase in which `DoSettle` leaves an executor. */
  function SettlePhase(s: Sys, t: Task): Phase {
    match t.phase
    case Decided(WorkerSucceeded(payload)) => if CancelRequested(s.db, t.work.id) then Withdrawing else Committed(payload)
    case Decided(_) => Settled
    case Withdrawing => Settled
    case Written(_) => Settled
    case Raised(_) => Settled
    case _ => t.phase
  }

  lemma {:induction false} SettleMoves(s: Sys, j: nat)
    requires j in s.tasks
    ensures var p := SettlePhase(s, s.tasks[j]);
            DoSettle(s, j).tasks == if p == s.tasks[j].phase then s.tasks else MoveTask(s, j, p).tasks
  {
    hide SettleDb, CancelRequested;
  }

  lemma {:induction false} SettleSteps(s: Sys, j: nat, k: nat)
    ensures Stepped(s, DoSettle(s, j).tasks, k)
  {
    RestSteps(s, k);
    hide Stepped, CancelRequested;
    if j in s.tasks {
      SettleMoves(s, j);
      MoveSteps(s, j, SettlePhase(s, s.tasks[j]), k);
      hide DoSettle;
    }
  }

  lemma {:induction false} AdmitSteps(s: Sys)
    ensures DoAdmit(s).tasks == s.tasks
  {
    hide Select, AfterReserve, Decide, CanEverReserve, DeadlineReached, Reject;
    if s.sched.Picked? && !DeadlineReached(s.sched.work.request, s.sched.now) {
      match Select(s.sched.work.request, s.inventory)
      case NoMatch(stage) =>
      case Chosen(engine, model) =>
        if CanEverReserve(s.capacity, engine.resources) {
          if Decide(s.capacity, s.usage, engine.resources).Granted? {
          }
        }
    }
  }

  predicate Unmoved(s: Sys, tasks: Tasks, k: nat) {
    k in tasks ==> k in s.tasks && tasks[k] == s.tasks[k]
  }

  lemma {:induction false} BeginSteps(s: Sys, k: nat)
    ensures Unmoved(s, DoBegin(s).tasks, k)
  {
    hide DeadlineReached, Reject, BeginAttempt, BeginResult;
    if s.sched.Admitted? && !DeadlineReached(s.sched.work.request, s.clock) {
      match BeginResult(s.db, s.sched.work.id)
      case Began(n) =>
      case Lost =>
      case KeyConflict =>
    }
  }

  lemma {:induction false} ScanSteps(s: Sys, k: nat)
    ensures Unmoved(s, DoWake(s).tasks, k) && Unmoved(s, DoSweep(s).tasks, k) && Unmoved(s, DoPick(s).tasks, k)
    ensures Unmoved(s, DoReturn(s).tasks, k)
  {
    hide NextEligible, AfterRelease, Expire;
  }

  lemma {:induction false} OtherSteps(s: Sys, a: Action, k: nat)
    requires !a.SchedAdmit? && !a.SchedBegin? && !a.SchedLaunch? && !a.TaskSettle? && !a.TaskStart? && !a.TaskDecide?
    requires !a.TaskThrow? && !a.TaskWrite? && !a.TaskExit?
    ensures Unmoved(s, Step(s, a).tasks, k)
  {
    ScanSteps(s, k);
    hide DoAdmit, DoBegin, DoLaunch, DoSettle, Cancel, Acknowledge, Submit, NewWork, ValidConfiguration, Recover, DoStart,
         DoDecide, DoThrow, DoWrite, DoExit, AcknowledgeSucceeds, DoWake, DoSweep, DoPick, DoReturn;
  }

  /** Every step but a launch only lets executors make their transitions, or ends them. */
  lemma {:induction false} TaskSteps(s: Sys, a: Action, k: nat)
    requires !a.SchedLaunch?
    ensures Stepped(s, Step(s, a).tasks, k)
  {
    RestSteps(s, k);
    hide DoAdmit, DoBegin, DoLaunch, DoSettle, DoStart, DoDecide, DoThrow, DoWrite, DoExit, PhaseStep,
         DoWriteInput, DoInsertWork, DoCancelWork, DoAcknowledge, DoRemoveInput, DoRemoveResult, DoWake, DoSweep, DoPick,
         DoReturn, DoRequestStop, DoCrash, DoBoot;
    match a
    case SchedAdmit => AdmitSteps(s);
    case SchedBegin => BeginSteps(s, k);
    case TaskSettle(j) => SettleSteps(s, j, k);
    case TaskStart(j, readable, why) => StartSteps(s, j, readable, why, k);
    case TaskDecide(j, outcome) => DecideSteps(s, j, outcome, k);
    case TaskThrow(j, why) => ThrowSteps(s, j, why, k);
    case TaskWrite(j) => WriteSteps(s, j, k);
    case TaskExit(j) => ExitSteps(s, j, k);
    case _ => OtherSteps(s, a, k);
  }

  /** A launch adds one executor, at its first phase. */
  lemma {:induction false} LaunchSteps(s: Sys, ok: bool, why: Bytes, k: nat)
    requires k in DoLaunch(s, ok, why).tasks
    ensures DoLaunch(s, ok, why).tasks[k].phase.Launched? || (k in s.tasks && DoLaunch(s, ok, why).tasks[k] == s.tasks[k])
  {
    hide FinishFailure;
  }

  // The scheduler

  /** The transitions of the scheduler thread. */
  ghost predicate SchedStep(s: Sys, q: Scheduler) {
    || q == s.sched || q.Idle? || q.Returning?
    || match s.sched
       case Idle => q == Scanning(s.clock)
       case Scanning(now) => q == Swept(now)
       case Swept(now) =>
         && q.Picked? && q.now == now && NextEligible(s.db, now).Some?
         && var id := NextEligible(s.db, now).value;
            id in s.db.records && q.work == s.db.records[id].work
       case Picked(now, w) =>
         q.Admitted? && q.now == now && q.work == w && Select(w.request, s.inventory) == Chosen(q.engine, q.model)
       case Admitted(now, w, e, m, lease) => q.Begun? && q.work == w
       case _ => false
  }

  /** The step leaves the clock and the connection thread alone. */
  predicate Keeps(s: Sys, t: Sys) {
    t.clock == s.clock && t.client == s.client
  }

  /** The process dies in this step. */
  predicate Dies(s: Sys, a: Action) {
    a.Crash? || (a.SchedBegin? && s.sched.Admitted? && BeginResult(s.db, s.sched.work.id).KeyConflict?)
  }

  /** A step of the connection thread. */
  predicate OfClient(a: Action) {
    a.WriteInput? || a.InsertWork? || a.AcknowledgeWork? || a.RemoveInput? || a.RemoveResult?
  }

  /** A submission under way was there before, or begins now with the current time as its creation time. */
  predicate ClientStep(s: Sys, a: Action, t: Sys) {
    && (t.client.InputWritten? ==>
          t.client == s.client || (a.WriteInput? && t.client.work.request.createdAt == s.clock))
    && (!OfClient(a) ==> if Dies(s, a) then t.client.Ready? || t.client == s.client else t.client == s.client)
  }

  lemma {:induction false} AdmitKeeps(s: Sys)
    ensures Keeps(s, DoAdmit(s))
  {
    hide Select, AfterReserve, Decide, CanEverReserve, DeadlineReached, Reject;
    if s.sched.Picked? && !DeadlineReached(s.sched.work.request, s.sched.now) {
      match Select(s.sched.work.request, s.inventory)
      case NoMatch(stage) =>
      case Chosen(engine, model) =>
        if CanEverReserve(s.capacity, engine.resources) {
          if Decide(s.capacity, s.usage, engine.resources).Granted? {
          }
        }
    }
  }

  lemma {:induction false} AdmitMoves(s: Sys)
    ensures SchedStep(s, DoAdmit(s).sched)
  {
    hide Select, AfterReserve, Decide, CanEverReserve, DeadlineReached, Reject, NextEligible;
    if s.sched.Picked? && !DeadlineReached(s.sched.work.request, s.sched.now) {
      match Select(s.sched.work.request, s.inventory)
      case NoMatch(stage) =>
      case Chosen(engine, model) =>
        if CanEverReserve(s.capacity, engine.resources) {
          if Decide(s.capacity, s.usage, engine.resources).Granted? {
          }
        }
    }
  }

  lemma {:induction false} BeginsTo(s: Sys, n: int)
    requires s.sched.Admitted? && !DeadlineReached(s.sched.work.request, s.clock)
    requires BeginResult(s.db, s.sched.work.id) == Began(n)
    ensures DoBegin(s).sched == Begun(s.sched.work, n, s.clock, s.sched.lease) && Keeps(s, DoBegin(s))
  {
    hide DeadlineReached, BeginAttempt, BeginResult;
  }

  lemma {:induction false} BeginMoves(s: Sys)
    ensures SchedStep(s, DoBegin(s).sched) && DoBegin(s).clock == s.clock
  {
    hide DeadlineReached, Reject, BeginAttempt, BeginResult, Select, NextEligible;
    if s.sched.Admitted? && !DeadlineReached(s.sched.work.request, s.clock) && BeginResult(s.db, s.sched.work.id).Began? {
      BeginsTo(s, BeginResult(s.db, s.sched.work.id).attempt);
      hide DoBegin;
    }
  }

  lemma {:induction false} BeginClient(s: Sys)
    ensures DoBegin(s).client == s.client || (DoBegin(s).client.Ready? && Dies(s, SchedBegin))
  {
    hide DeadlineReached, Reject, BeginAttempt, BeginResult;
    if s.sched.Admitted? && !DeadlineReached(s.sched.work.request, s.clock) {
      match BeginResult(s.db, s.sched.work.id)
      case Began(n) => BeginsTo(s, n);
      case Lost =>
      case KeyConflict =>
    }
  }

  predicate SameWatch(s: Sys, t: Sys) {
    t.sched == s.sched && Keeps(s, t)
  }

  lemma {:induction false} StartWatch(s: Sys, j: nat, readable: bool, why: Bytes)
    ensures SameWatch(s, DoStart(s, j, readable, why))
  {
  }

  lemma {:induction false} DecideWatch(s: Sys, j: nat, outcome: Outcome)
    ensures SameWatch(s, DoDecide(s, j, outcome))
  {
    hide Observable;
  }

  lemma {:induction false} ThrowWatch(s: Sys, j: nat, why: Bytes)
    ensures SameWatch(s, DoThrow(s, j, why))
  {
  }

  lemma {:induction false} EndWatch(s: Sys, j: nat)
    ensures SameWatch(s, DoWrite(s, j))
    ensures SameWatch(s, DoExit(s, j))
  {
    hide AfterRelease;
  }

  lemma {:induction false} SettleWatch(s: Sys, j: nat)
    ensures SameWatch(s, DoSettle(s, j))
  {
    hide SettleDb, CancelRequested;
  }

  /** A step of the connection thread that starts no submission. */
  predicate Serves(s: Sys, t: Sys) {
    t.sched == s.sched && t.clock == s.clock && (t.client.InputWritten? ==> t.client == s.client)
  }

  lemma {:induction false} ClientWatch(s: Sys, id: WorkId)
    ensures Serves(s, DoInsertWork(s)) && SameWatch(s, DoCancelWork(s, id)) && Serves(s, DoAcknowledge(s, id))
  {
    hide Submit, Cancel, Acknowledge, AcknowledgeSucceeds;
  }

  lemma {:induction false} RemovalWatch(s: Sys)
    ensures Serves(s, DoRemoveInput(s)) && Serves(s, DoRemoveResult(s))
  {
  }

  lemma {:induction false} WriteInputMoves(s: Sys, w: Work, payload: Bytes)
    ensures var t := DoWriteInput(s, w, payload);
            t.sched == s.sched && t.clock == s.clock && ClientStep(s, WriteInput(w, payload), t)
  {
  }

  lemma {:induction false} ProcessMoves(s: Sys, inventory: seq<Engine>, capacity: Capacity)
    ensures SameWatch(s, DoRequestStop(s)) && SameWatch(s, DoBoot(s, inventory, capacity))
    ensures DoCrash(s).clock == s.clock && DoCrash(s).client.Ready? && DoCrash(s).sched.Idle?
  {
    hide Recover, ValidConfiguration;
  }

  lemma {:induction false} ScanMoves(s: Sys)
    ensures SchedStep(s, DoWake(s).sched) && Keeps(s, DoWake(s))
    ensures SchedStep(s, DoSweep(s).sched) && Keeps(s, DoSweep(s))
  {
    hide NextEligible, Expire, Select;
  }

  lemma {:induction false} PickMoves(s: Sys)
    ensures SchedStep(s, DoPick(s).sched) && Keeps(s, DoPick(s))
  {
    hide NextEligible, Select;
    if s.sched.Swept? {
      match NextEligible(s.db, s.sched.now)
      case None =>
      case Some(id) =>
        if id in s.db.records {
          assert DoPick(s) == s.(sched := Picked(s.sched.now, s.db.records[id].work));
          hide DoPick;
        }
    }
  }

  lemma {:induction false} LaunchMoves(s: Sys, ok: bool, why: Bytes)
    ensures SchedStep(s, DoLaunch(s, ok, why).sched) && Keeps(s, DoLaunch(s, ok, why))
    ensures SchedStep(s, DoReturn(s).sched) && Keeps(s, DoReturn(s))
  {
    hide NextEligible, Select, FinishFailure, AfterRelease;
  }

  /**
   Every step leaves the scheduler in place or makes one of its transitions, and only the clock sets the clock.
   */
  lemma {:induction false} SchedSteps(s: Sys, a: Action)
    ensures SchedStep(s, Step(s, a).sched)
    ensures Step(s, a).clock == if a.ClockTo? then a.time else s.clock
  {
    hide DoAdmit, DoBegin, DoSettle, NextEligible, DoStart, DoDecide, DoThrow, DoWrite, DoExit, DoWriteInput, DoInsertWork,
         DoCancelWork, DoAcknowledge, DoRemoveInput, DoRemoveResult, DoRequestStop, DoCrash, DoBoot, DoWake, DoSweep, DoPick,
         DoLaunch, DoReturn, Select;
    match a
    case SchedWake => ScanMoves(s);
    case SchedSweep => ScanMoves(s);
    case SchedPick => PickMoves(s);
    case SchedAdmit =>
      AdmitMoves(s);
      AdmitKeeps(s);
    case SchedBegin => BeginMoves(s);
    case SchedLaunch(ok, why) => LaunchMoves(s, ok, why);
    case SchedReturn => LaunchMoves(s, true, []);
    case TaskSettle(j) => SettleWatch(s, j);
    case TaskStart(j, readable, why) => StartWatch(s, j, readable, why);
    case TaskDecide(j, outcome) => DecideWatch(s, j, outcome);
    case TaskThrow(j, why) => ThrowWatch(s, j, why);
    case TaskWrite(j) => EndWatch(s, j);
    case TaskExit(j) => EndWatch(s, j);
    case WriteInput(work, payload) => WriteInputMoves(s, work, payload);
    case InsertWork => ClientWatch(s, "");
    case CancelWork(id) => ClientWatch(s, id);
    case AcknowledgeWork(id) => ClientWatch(s, id);
    case RemoveInput => RemovalWatch(s);
    case RemoveResult => RemovalWatch(s);
    case RequestStop => ProcessMoves(s, [], NO_CAPACITY);
    case Crash => ProcessMoves(s, [], NO_CAPACITY);
    case Start(inventory, capacity) => ProcessMoves(s, inventory, capacity);
    case ClockTo(time) =>
  }

  /** Only a submission starts one, and a command of the client is interrupted only when the process dies. */
  lemma {:induction false} ClientSteps(s: Sys, a: Action)
    ensures ClientStep(s, a, Step(s, a))
  {
    hide DoAdmit, DoBegin, DoSettle, NextEligible, DoStart, DoDecide, DoThrow, DoWrite, DoExit, DoWriteInput, DoInsertWork,
         DoCancelWork, DoAcknowledge, DoRemoveInput, DoRemoveResult, DoRequestStop, DoCrash, DoBoot, DoWake, DoSweep, DoPick,
         DoLaunch, DoReturn, Select;
    match a
    case SchedWake => ScanMoves(s);
    case SchedSweep => ScanMoves(s);
    case SchedPick => PickMoves(s);
    case SchedAdmit => AdmitKeeps(s);
    case SchedBegin => BeginClient(s);
    case SchedLaunch(ok, why) => LaunchMoves(s, ok, why);
    case SchedReturn => LaunchMoves(s, true, []);
    case TaskSettle(j) => SettleWatch(s, j);
    case TaskStart(j, readable, why) => StartWatch(s, j, readable, why);
    case TaskDecide(j, outcome) => DecideWatch(s, j, outcome);
    case TaskThrow(j, why) => ThrowWatch(s, j, why);
    case TaskWrite(j) => EndWatch(s, j);
    case TaskExit(j) => EndWatch(s, j);
    case WriteInput(work, payload) => WriteInputMoves(s, work, payload);
    case InsertWork => ClientWatch(s, "");
    case CancelWork(id) => ClientWatch(s, id);
    case AcknowledgeWork(id) => ClientWatch(s, id);
    case RemoveInput => RemovalWatch(s);
    case RemoveResult => RemovalWatch(s);
    case RequestStop => ProcessMoves(s, [], NO_CAPACITY);
    case Crash => ProcessMoves(s, [], NO_CAPACITY);
    case Start(inventory, capacity) => ProcessMoves(s, inventory, capacity);
    case ClockTo(time) =>
  }

  // The configuration

  datatype Configuration = Configuration(inventory: seq<Engine>, capacity: Capacity)

  function ConfigurationOf(s: Sys): Configuration {
    Configuration(s.inventory, s.capacity)
  }

  lemma {:induction false} TaskKeepsConfiguration(s: Sys, k: nat, readable: bool, why: Bytes, outcome: Outcome)
    ensures ConfigurationOf(DoStart(s, k, readable, why)) == ConfigurationOf(s)
    ensures ConfigurationOf(DoDecide(s, k, outcome)) == ConfigurationOf(s)
    ensures ConfigurationOf(DoThrow(s, k, why)) == ConfigurationOf(s)
  {
    hide Observable;
  }

  lemma {:induction false} SettleKeepsConfiguration(s: Sys, k: nat)
    ensures ConfigurationOf(DoSettle(s, k)) == ConfigurationOf(s)
  {
    hide SettleDb, CancelRequested;
  }

  lemma {:induction false} AdmitKeepsConfiguration(s: Sys)
    ensures ConfigurationOf(DoAdmit(s)) == ConfigurationOf(s)
  {
    hide Select, AfterReserve, Decide, CanEverReserve, DeadlineReached, Reject;
    if s.sched.Picked? && !DeadlineReached(s.sched.work.request, s.sched.now) {
      match Select(s.sched.work.request, s.inventory)
      case NoMatch(stage) =>
      case Chosen(engine, model) =>
        if CanEverReserve(s.capacity, engine.resources) {
          if Decide(s.capacity, s.usage, engine.resources).Granted? {
          }
        }
    }
  }

  lemma {:induction false} BeginKeepsConfiguration(s: Sys)
    ensures ConfigurationOf(DoBegin(s)) == ConfigurationOf(s)
  {
    hide DeadlineReached, Reject, BeginAttempt, BeginResult;
    if s.sched.Admitted? && !DeadlineReached(s.sched.work.request, s.clock) {
      match BeginResult(s.db, s.sched.work.id)
      case Began(n) =>
      case Lost =>
      case KeyConflict =>
    }
  }

  lemma {:induction false} ScanKeepsConfiguration(s: Sys)
    ensures ConfigurationOf(DoWake(s)) == ConfigurationOf(s)
    ensures ConfigurationOf(DoSweep(s)) == ConfigurationOf(s)
    ensures ConfigurationOf(DoPick(s)) == ConfigurationOf(s)
  {
    hide NextEligible, Expire;
  }

  lemma {:induction false} LaunchKeepsConfiguration(s: Sys, ok: bool, why: Bytes)
    ensures ConfigurationOf(DoLaunch(s, ok, why)) == ConfigurationOf(s)
    ensures ConfigurationOf(DoReturn(s)) == ConfigurationOf(s)
  {
    hide AfterRelease, FinishFailure;
  }

  /** Only a restart changes the inventory and the capacity. */
  lemma {:induction false} ConfigurationSteps(s: Sys, a: Action)
    requires !a.Start?
    ensures ConfigurationOf(Step(s, a)) == ConfigurationOf(s)
  {
    hide DoStart, DoDecide, DoThrow, DoSettle, DoAdmit, DoBegin, AfterRelease, Cancel, Acknowledge, Submit, NewWork, DoBoot,
         AcknowledgeSucceeds, DoWake, DoSweep, DoPick, DoLaunch, DoReturn;
    match a
    case SchedWake => ScanKeepsConfiguration(s);
    case SchedSweep => ScanKeepsConfiguration(s);
    case SchedPick => ScanKeepsConfiguration(s);
    case SchedLaunch(ok, why) => LaunchKeepsConfiguration(s, ok, why);
    case SchedReturn => LaunchKeepsConfiguration(s, true, []);
    case TaskStart(k, readable, why) => TaskKeepsConfiguration(s, k, readable, why, KernelStopped);
    case TaskDecide(k, outcome) => TaskKeepsConfiguration(s, k, true, [], outcome);
    case TaskThrow(k, why) => TaskKeepsConfiguration(s, k, true, why, KernelStopped);
    case TaskSettle(k) => SettleKeepsConfiguration(s, k);
    case SchedAdmit => AdmitKeepsConfiguration(s);
    case SchedBegin => BeginKeepsConfiguration(s);
    case _ =>
  }
}
