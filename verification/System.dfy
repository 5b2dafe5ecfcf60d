/**
 The Kernel as an interleaved transition system. One action is one atomic step of one actor: a client command's store
 or file operation, a step of the scheduler thread, a step of an executor task, a crash, or a restart. An action that
 is not enabled leaves the state as it is. The clock is read inside the step that uses it.
 */
module System {
  import opened Basics
  import opened StoreModel
  import opened ResourceModel
  import opened Selection

  /** How `WorkerPool::Lease::execute` can end for an executor. */
  datatype Outcome =
    | KernelStopped
    | CancelSeen
    | StopTimeReached
    | WorkerFailed(text: Bytes)
    | WorkerSucceeded(payload: Bytes)

  datatype Phase =
    | Launched
    | Executing
    | Decided(outcome: Outcome)
    | Withdrawing
    | Committed(payload: Bytes)
    | Written(payload: Bytes)
    | Raised(text: Bytes)
    | Settled

  /** An executor: its snapshot of the Work, the attempt it carries, and where it is in `execute_worker`. */
  datatype Task = Task(work: Work, attempt: int, startedAt: int, phase: Phase)

  /** Where the scheduler thread is in one iteration of its loop. */
  datatype Scheduler =
    | Idle
    | Scanning(now: int)
    | Swept(now: int)
    | Picked(now: int, work: Work)
    | Admitted(now: int, work: Work, engine: Engine, model: Bytes, lease: nat)
    | Begun(work: Work, attempt: int, startedAt: int, lease: nat)
    | Returning(lease: nat)

  /** Where the connection thread is in a command that takes several steps. */
  datatype Client =
    | Ready
    | InputWritten(work: Work)
    | Acknowledged(id: WorkId)
    | InputRemoved(id: WorkId)

  /**
   `ledger` lists the live resource leases by number; an executor has the number of the lease it holds. `outputs`
   is history: what the worker returned for each attempt that it answered.
   */
  datatype Sys = Sys(
    up: bool,
    stop: bool,
    clock: int,
    db: Db,
    inputs: map<WorkId, Bytes>,
    results: map<WorkId, Bytes>,
    outputs: map<(WorkId, int), Bytes>,
    client: Client,
    sched: Scheduler,
    tasks: map<nat, Task>,
    nextLease: nat,
    capacity: Capacity,
    usage: Usage,
    ledger: map<nat, Requirement>,
    inventory: seq<Engine>)

  datatype Action =
    | ClockTo(time: int)
    | WriteInput(work: Work, payload: Bytes)
    | InsertWork
    | CancelWork(id: WorkId)
    | AcknowledgeWork(id: WorkId)
    | RemoveInput
    | RemoveResult
    | SchedWake
    | SchedSweep
    | SchedPick
    | SchedAdmit
    | SchedBegin
    | SchedLaunch(ok: bool, why: Bytes)
    | SchedReturn
    | TaskStart(task: nat, readable: bool, why: Bytes)
    | TaskDecide(task: nat, outcome: Outcome)
    | TaskThrow(task: nat, why: Bytes)
    | TaskSettle(task: nat)
    | TaskWrite(task: nat)
    | TaskExit(task: nat)
    | RequestStop
    | Crash
    | Start(inventory: seq<Engine>, capacity: Capacity)

  const NO_CAPACITY := Capacity(1, 1, map[])

  const INIT := Sys(false, false, 0, EMPTY_DB, map[], map[], map[], Ready, Idle, map[], 0, NO_CAPACITY, NO_USAGE,
                    map[], [])

  /** What `submit` puts into a new row, after its checks of the request. */
  predicate NewWork(w: Work, now: int) {
    && w.state.Queued?
    && w.nextAttemptAt == w.request.eligibleAt
    && w.request.createdAt == now
    && w.request.maxAttempts >= 1
    && w.request.retryDelay >= 0
  }

  predicate ValidConfiguration(inventory: seq<Engine>, capacity: Capacity) {
    ValidCapacity(capacity) && forall i :: 0 <= i < |inventory| ==> ValidRequirement(inventory[i].resources)
  }

  predicate DeadlineReached(r: Request, now: int) {
    r.deadline.Some? && r.deadline.value <= now
  }

  /** True when the earlier of timeout and deadline is the timeout; a tie goes to the timeout. */
  predicate TimeoutWins(r: Request, startedAt: int) {
    r.timeout.Some? && !(r.deadline.Some? && r.deadline.value < startedAt + r.timeout.value)
  }

  function StopTime(r: Request, startedAt: int): Option<int> {
    if TimeoutWins(r, startedAt) then Some(startedAt + r.timeout.value) else r.deadline
  }

  function Release(s: Sys, lease: nat): Sys {
    if lease in s.ledger
    then s.(usage := AfterRelease(s.usage, s.ledger[lease]), ledger := s.ledger - {lease})
    else s
  }

  // Client commands

  function DoWriteInput(s: Sys, w: Work, payload: Bytes): Sys {
    if s.up && s.client.Ready? && w.id !in s.db.records && w.id !in s.inputs && w.id !in s.results && NewWork(w, s.clock)
    then s.(inputs := s.inputs[w.id := payload], client := InputWritten(w))
    else s
  }

  function DoInsertWork(s: Sys): Sys {
    if s.client.InputWritten? then s.(db := Submit(s.db, s.client.work), client := Ready) else s
  }

  function DoCancelWork(s: Sys, id: WorkId): Sys {
    if s.up && s.client.Ready? then s.(db := Cancel(s.db, id)) else s
  }

  predicate AcknowledgeSucceeds(s: Sys, id: WorkId) {
    s.up && s.client.Ready? && id in s.db.records && Acknowledgeable(s.db.records[id])
  }

  function DoAcknowledge(s: Sys, id: WorkId): Sys {
    if AcknowledgeSucceeds(s, id) then s.(db := Acknowledge(s.db, id), client := Acknowledged(id)) else s
  }

  function DoRemoveInput(s: Sys): Sys {
    if s.client.Acknowledged? then s.(inputs := s.inputs - {s.client.id}, client := InputRemoved(s.client.id)) else s
  }

  function DoRemoveResult(s: Sys): Sys {
    if s.client.InputRemoved? then s.(results := s.results - {s.client.id}, client := Ready) else s
  }

  /** The answer of the `result` command. */
  predicate ResultAvailable(s: Sys, id: WorkId) {
    id in s.db.records && Acknowledgeable(s.db.records[id]) && id in s.results
  }

  // The scheduler thread

  function DoWake(s: Sys): Sys {
    if s.up && !s.stop && s.sched.Idle? then s.(sched := Scanning(s.clock)) else s
  }

  function DoSweep(s: Sys): Sys {
    if s.sched.Scanning? then s.(db := Expire(s.db, s.sched.now), sched := Swept(s.sched.now)) else s
  }

  ghost function DoPick(s: Sys): Sys {
    if s.sched.Swept? then
      match NextEligible(s.db, s.sched.now)
      case None => s.(sched := Idle)
      case Some(id) =>
        if id in s.db.records then s.(sched := Picked(s.sched.now, s.db.records[id].work)) else s
    else s
  }

  function RejectPicked(s: Sys, text: Diagnosis): Sys
    requires s.sched.Picked?
  {
    s.(db := Reject(s.db, s.sched.work.id, text), sched := Idle)
  }

  function DoAdmit(s: Sys): Sys {
    if s.sched.Picked? then
      var w := s.sched.work;
      if DeadlineReached(w.request, s.sched.now) then RejectPicked(s, DeadlineBeforeDispatch)
      else
        match Select(w.request, s.inventory)
        case NoMatch(stage) => RejectPicked(s, Unmatched(stage))
        case Chosen(engine, model) =>
          if !CanEverReserve(s.capacity, engine.resources) then RejectPicked(s, InsufficientCapacity)
          else
            var usage := AfterReserve(s.capacity, s.usage, engine.resources);
            if Decide(s.capacity, s.usage, engine.resources).Granted? then
              s.(usage := usage, ledger := s.ledger[s.nextLease := engine.resources], nextLease := s.nextLease + 1,
                 sched := Admitted(s.sched.now, w, engine, model, s.nextLease))
            else s.(usage := usage, sched := Idle)
    else s
  }

  function DoBegin(s: Sys): Sys {
    if s.sched.Admitted? then
      var w := s.sched.work;
      if DeadlineReached(w.request, s.clock) then
        s.(db := Reject(s.db, w.id, DeadlineBeforeDispatch), sched := Returning(s.sched.lease))
      else
        match BeginResult(s.db, w.id)
        case Began(n) =>
          s.(db := BeginAttempt(s.db, w.id, s.sched.engine.id, s.sched.model, s.clock),
             sched := Begun(w, n, s.clock, s.sched.lease))
        case Lost => s.(sched := Returning(s.sched.lease))
        case KeyConflict => DoCrash(s)
    else s
  }

  function DoLaunch(s: Sys, ok: bool, why: Bytes): Sys {
    if s.sched.Begun? then
      if ok then
        s.(tasks := s.tasks[s.sched.lease := Task(s.sched.work, s.sched.attempt, s.sched.startedAt, Launched)],
           sched := Idle)
      else
        s.(db := FinishFailure(s.db, s.sched.work.id, s.sched.attempt, Faulted, LaunchFailure(why), s.clock),
           sched := Returning(s.sched.lease))
    else s
  }

  function DoReturn(s: Sys): Sys {
    if s.sched.Returning? then Release(s, s.sched.lease).(sched := Idle) else s
  }

  // Executor tasks

  function MoveTask(s: Sys, k: nat, phase: Phase): Sys
    requires k in s.tasks
  {
    s.(tasks := s.tasks[k := s.tasks[k].(phase := phase)])
  }

  function DoStart(s: Sys, k: nat, readable: bool, why: Bytes): Sys {
    if k in s.tasks && s.tasks[k].phase.Launched? then
      if s.stop then MoveTask(s, k, Settled)
      else if readable && s.tasks[k].work.id in s.inputs then MoveTask(s, k, Executing)
      else MoveTask(s, k, Raised(why))
    else s
  }

  /** When an outcome can be returned: the supervision loop observed the reason for it. */
  predicate Observable(s: Sys, t: Task, outcome: Outcome) {
    match outcome
    case KernelStopped => s.stop
    case CancelSeen => CancelRequested(s.db, t.work.id)
    case StopTimeReached =>
      StopTime(t.work.request, t.startedAt).Some? && StopTime(t.work.request, t.startedAt).value <= s.clock
    case WorkerFailed(_) => true
    case WorkerSucceeded(_) => true
  }

  function DoDecide(s: Sys, k: nat, outcome: Outcome): Sys {
    if k in s.tasks && s.tasks[k].phase.Executing? && Observable(s, s.tasks[k], outcome) then
      var outputs :=
        if outcome.WorkerSucceeded? then s.outputs[(s.tasks[k].work.id, s.tasks[k].attempt) := outcome.payload]
        else s.outputs;
      MoveTask(s, k, Decided(outcome)).(outputs := outputs)
    else s
  }

  function DoThrow(s: Sys, k: nat, why: Bytes): Sys {
    if k in s.tasks && (s.tasks[k].phase.Executing? || s.tasks[k].phase.Committed?)
    then MoveTask(s, k, Raised(why)) else s
  }

  function DoWrite(s: Sys, k: nat): Sys {
    if k in s.tasks && s.tasks[k].phase.Committed? then
      MoveTask(s, k, Written(s.tasks[k].phase.payload))
      .(results := s.results[s.tasks[k].work.id := s.tasks[k].phase.payload])
    else s
  }

  function StopText(t: Task): Diagnosis {
    if TimeoutWins(t.work.request, t.startedAt) then AttemptTimeout else DeadlineDuringAttempt
  }

  /** The store update with which the executor ends its attempt, if its phase has one. */
  function SettleDb(s: Sys, t: Task): Db {
    var id := t.work.id;
    match t.phase
    case Decided(CancelSeen) => FinishCancelled(s.db, id, t.attempt, s.clock)
    case Decided(StopTimeReached) => FinishFailure(s.db, id, t.attempt, TimedOut, StopText(t), s.clock)
    case Decided(WorkerFailed(text)) => FinishFailure(s.db, id, t.attempt, Faulted, WorkerReport(text), s.clock)
    case Withdrawing => FinishCancelled(s.db, id, t.attempt, s.clock)
    case Written(_) => FinishSuccess(s.db, id, t.attempt, s.clock)
    case Raised(text) =>
      if s.stop then s.db else FinishFailure(s.db, id, t.attempt, Faulted, ExecutionFailure(text), s.clock)
    case _ => s.db
  }

  /** After a success the cancel flag is read once more; it decides between withdrawing and committing. */
  function DoSettle(s: Sys, k: nat): Sys {
    if k in s.tasks then
      var t := s.tasks[k];
      match t.phase
      case Decided(WorkerSucceeded(payload)) =>
        MoveTask(s, k, if CancelRequested(s.db, t.work.id) then Withdrawing else Committed(payload))
      case Decided(_) => MoveTask(s, k, Settled).(db := SettleDb(s, t))
      case Withdrawing => MoveTask(s, k, Settled).(db := SettleDb(s, t))
      case Written(_) => MoveTask(s, k, Settled).(db := SettleDb(s, t))
      case Raised(_) => MoveTask(s, k, Settled).(db := SettleDb(s, t))
      case _ => s
    else s
  }

  function DoExit(s: Sys, k: nat): Sys {
    if k in s.tasks && s.tasks[k].phase.Settled? then Release(s, k).(tasks := s.tasks - {k}) else s
  }

  // The process

  function DoRequestStop(s: Sys): Sys {
    if s.up then s.(stop := true) else s
  }

  /** Everything but the files and the database is lost. */
  function DoCrash(s: Sys): Sys {
    s.(up := false, stop := false, client := Ready, sched := Idle, tasks := map[], usage := NO_USAGE, ledger := map[])
  }

  function DoBoot(s: Sys, inventory: seq<Engine>, capacity: Capacity): Sys {
    if !s.up && ValidConfiguration(inventory, capacity)
    then s.(up := true, inventory := inventory, capacity := capacity, db := Recover(s.db, s.clock))
    else s
  }

  ghost function Step(s: Sys, a: Action): Sys {
    match a
    case ClockTo(time) => s.(clock := time)
    case WriteInput(work, payload) => DoWriteInput(s, work, payload)
    case InsertWork => DoInsertWork(s)
    case CancelWork(id) => DoCancelWork(s, id)
    case AcknowledgeWork(id) => DoAcknowledge(s, id)
    case RemoveInput => DoRemoveInput(s)
    case RemoveResult => DoRemoveResult(s)
    case SchedWake => DoWake(s)
    case SchedSweep => DoSweep(s)
    case SchedPick => DoPick(s)
    case SchedAdmit => DoAdmit(s)
    case SchedBegin => DoBegin(s)
    case SchedLaunch(ok, why) => DoLaunch(s, ok, why)
    case SchedReturn => DoReturn(s)
    case TaskStart(k, readable, why) => DoStart(s, k, readable, why)
    case TaskDecide(k, outcome) => DoDecide(s, k, outcome)
    case TaskThrow(k, why) => DoThrow(s, k, why)
    case TaskSettle(k) => DoSettle(s, k)
    case TaskWrite(k) => DoWrite(s, k)
    case TaskExit(k) => DoExit(s, k)
    case RequestStop => DoRequestStop(s)
    case Crash => DoCrash(s)
    case Start(inventory, capacity) => DoBoot(s, inventory, capacity)
  }

  /** The state after a run: any list of actions, in any interleaving. */
  ghost function Run(s: Sys, actions: seq<Action>): Sys
    decreases |actions|
  {
    if actions == [] then s else Run(Step(s, actions[0]), actions[1..])
  }

  /** The run never sets the clock back. */
  ghost predicate Monotone(s: Sys, actions: seq<Action>)
    decreases |actions|
  {
    actions != [] ==>
      && (actions[0].ClockTo? ==> s.clock <= actions[0].time)
      && Monotone(Step(s, actions[0]), actions[1..])
  }
}
