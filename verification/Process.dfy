/** The process itself: what a stop, a crash and a restart do to the state, and that a running Kernel never gets stuck. */
module Process {
  import opened Basics
  import opened StoreModel
  import opened Statements
  import opened ResourceModel
  import opened Selection
  import opened RecordInvariant
  import opened System
  import opened Invariant
  import opened Preservation
  import opened Effects
  import opened Lifecycle
  import opened Scheduling
  import opened Dispatch
  import opened Executors
  import opened Commands

  // Stop, crash and restart

  /** A crash keeps the tables, the files and nothing else; a stop only raises the flag. */
  lemma {:induction false} CrashKeepsTheDisk(s: Sys)
    ensures var t := Step(s, Crash);
            && t.db == s.db && t.inputs == s.inputs && t.results == s.results
            && !t.up && !t.stop && t.client.Ready? && t.sched.Idle?
            && t.tasks == map[] && t.ledger == map[] && forall kind :: UsageOf(t.usage, kind) == 0
    ensures Step(s, RequestStop) == if s.up then s.(stop := true) else s
  {
  }

  /** What the process checks of its configuration when it starts. */
  predicate Configured(inventory: seq<Engine>, c: Capacity) {
    && c.cpu >= 1 && c.ram > 0
    && forall i :: 0 <= i < |inventory| ==>
         var r := inventory[i].resources; r.cpu >= 1 && r.ram > 0 && (r.gpu == [] <==> r.vram == 0)
  }

  /** A start with a valid configuration recovers every interrupted Work before anything else happens. */
  lemma {:induction false} StartRecovers(s: Sys, inventory: seq<Engine>, c: Capacity)
    requires Inv(s)
    ensures var t := Step(s, Start(inventory, c));
            if s.up || !Configured(inventory, c) then t == s
            else
              && t == s.(up := true, inventory := inventory, capacity := c, db := t.db)
              && t.db.records.Keys == s.db.records.Keys && t.db.lastRow == s.db.lastRow
              && forall id :: id in s.db.records ==> SettledByRecovery(s.db.records[id], t.db.records[id], s.clock)
  {
    var db := Recover(s.db, s.clock);
    assert ValidConfiguration(inventory, c) <==> Configured(inventory, c);
    forall id | id in s.db.records
      ensures SettledByRecovery(s.db.records[id], db.records[id], s.clock)
    {
      RecordIsKept(s, id);
      RecoverySettles(id, s.db.records[id], s.clock);
    }
    hide Inv, ValidConfiguration, Configured, SettledByRecovery;
    assert db.records.Keys == s.db.records.Keys && db.lastRow == s.db.lastRow;
    hide Recover;
  }

  lemma {:induction false} RecordIsKept(s: Sys, id: WorkId)
    requires Inv(s) && id in s.db.records
    ensures RecordOk(id, s.db.records[id])
  {
    hide TasksOk, Exclusive, SchedOk, OwnedOk, HoldersOk, CountersOk, FilesOk, ClientOk, RecordOk;
  }

  /** The actor of the action is at the point where it can take it. */
  predicate InTurn(s: Sys, a: Action) {
    match a
    case SchedWake => s.up && !s.stop && s.sched.Idle?
    case SchedSweep => s.sched.Scanning?
    case SchedPick => s.sched.Swept?
    case SchedAdmit => s.sched.Picked?
    case SchedBegin => s.sched.Admitted?
    case SchedLaunch(_, _) => s.sched.Begun?
    case SchedReturn => s.sched.Returning?
    case TaskStart(k, _, _) => k in s.tasks && s.tasks[k].phase.Launched?
    case TaskDecide(k, _) => k in s.tasks && s.tasks[k].phase.Executing?
    case TaskThrow(k, _) => k in s.tasks && (s.tasks[k].phase.Executing? || s.tasks[k].phase.Committed?)
    case TaskSettle(k) =>
      && k in s.tasks
      && (s.tasks[k].phase.Decided? || s.tasks[k].phase.Withdrawing? || s.tasks[k].phase.Written? || s.tasks[k].phase.Raised?)
    case TaskWrite(k) => k in s.tasks && s.tasks[k].phase.Committed?
    case TaskExit(k) => k in s.tasks && s.tasks[k].phase.Settled?
    case InsertWork => s.client.InputWritten?
    case RemoveInput => s.client.Acknowledged?
    case RemoveResult => s.client.InputRemoved?
    case CancelWork(_) => s.up && s.client.Ready?
    case AcknowledgeWork(id) => s.up && s.client.Ready? && ResultRecorded(s, id)
    case WriteInput(w, _) => Accepts(s, w)
    case RequestStop => s.up
    case _ => true
  }

  predicate ResultRecorded(s: Sys, id: WorkId) {
    id in s.db.records && s.db.records[id].work.state.Succeeded? && !s.db.records[id].work.acknowledged
  }

  /** An action out of turn changes nothing at all. */
  lemma {:induction false} OutOfTurn(s: Sys, a: Action)
    requires !InTurn(s, a)
    ensures Step(s, a) == s
  {
    hide Submit, Cancel, Acknowledge, Recover, Expire, NextEligible, RejectPicked, Select, Release, SettleDb, Observable;
  }

  /** While the process is down nothing happens but its start. */
  lemma {:induction false} DownIsSilent(s: Sys, a: Action)
    requires Inv(s) && !s.up && !a.Start? && !a.ClockTo?
    ensures Step(s, a) == s
  {
    DownFacts(s);
    hide Inv;
    if a.Crash? {
      hide NextEligible;
    } else {
      assert !InTurn(s, a);
      hide Step;
      OutOfTurn(s, a);
    }
  }

  lemma {:induction false} DownFacts(s: Sys)
    requires Inv(s) && !s.up
    ensures s.tasks == map[] && s.sched.Idle? && s.client.Ready? && !s.stop && s.usage == NO_USAGE && s.ledger == map[]
  {
    hide DbOk, TasksOk, Exclusive, SchedOk, OwnedOk, HoldersOk, FilesOk, ClientOk;
  }

  // Nothing gets stuck

  lemma {:induction false} RunConcat(s: Sys, first: seq<Action>, later: seq<Action>)
    ensures Run(s, first + later) == Run(Run(s, first), later)
    decreases |first|
  {
    hide Step;
    if first == [] {
      assert first + later == later;
    } else {
      RunConcat(Step(s, first[0]), first[1..], later);
      assert (first + later)[1..] == first[1..] + later;
    }
  }

  lemma {:induction false} RunOne(s: Sys, a: Action)
    ensures Run(s, [a]) == Step(s, a)
  {
    hide Step;
    assert [a][1..] == [];
    assert Run(Step(s, a), []) == Step(s, a);
  }

  /** How far the scheduler is from the end of its loop. */
  function Distance(q: Scheduler): nat {
    match q
    case Idle => 0
    case Returning(_) => 1
    case Begun(_, _, _, _) => 2
    case Admitted(_, _, _, _, _) => 3
    case Picked(_, _) => 4
    case Swept(_) => 5
    case Scanning(_) => 6
  }

  /** Its next action, with a launch that fails. */
  function NextOf(q: Scheduler): Action {
    match q
    case Idle => SchedWake
    case Returning(_) => SchedReturn
    case Begun(_, _, _, _) => SchedLaunch(false, [])
    case Admitted(_, _, _, _, _) => SchedBegin
    case Picked(_, _) => SchedAdmit
    case Swept(_) => SchedPick
    case Scanning(_) => SchedSweep
  }

  /** The step of one thread: the client's thread and files, the configuration and the process are left alone. */
  predicate Internal(s: Sys, t: Sys) {
    && t.up == s.up && t.stop == s.stop && t.clock == s.clock && t.client == s.client
    && t.inputs == s.inputs && t.inventory == s.inventory && t.capacity == s.capacity
  }

  /** The scheduler has moved on, and has left the executors alone. */
  predicate Nearer(s: Sys, t: Sys) {
    Distance(t.sched) < Distance(s.sched) && Internal(s, t) && t.tasks == s.tasks
  }

  lemma {:induction false} PickFrame(s: Sys)
    ensures var t := Step(s, SchedPick); t == s.(sched := t.sched)
  {
    hide NextEligible;
    if s.sched.Swept? {
      match NextEligible(s.db, s.sched.now)
      case None => assert DoPick(s) == s.(sched := Idle);
      case Some(id) =>
        if id in s.db.records {
          assert DoPick(s) == s.(sched := Picked(s.sched.now, s.db.records[id].work));
        }
    }
  }

  lemma {:induction false} PickNearer(s: Sys)
    requires DbOk(s.db) && s.sched.Swept?
    ensures Nearer(s, Step(s, SchedPick))
  {
    hide DbOk, Step, ComesFirst, MayStart;
    ScanDecides(s);
    PickFrame(s);
  }

  /** Only the table, the leases and the scheduler's place have changed. */
  predicate SchedulerOnly(s: Sys, t: Sys) {
    t == s.(db := t.db, usage := t.usage, ledger := t.ledger, nextLease := t.nextLease, sched := t.sched)
  }

  lemma {:induction false} OnlyIsNearer(s: Sys, t: Sys)
    requires SchedulerOnly(s, t) && Distance(t.sched) < Distance(s.sched)
    ensures Nearer(s, t)
  {
    hide Distance;
  }

  lemma {:induction false} FailedOnly(s: Sys, t: Sys, place: Scheduler, id: WorkId, text: Diagnosis)
    requires FailedFor(s, t, place, id, text)
    ensures SchedulerOnly(s, t) && t.sched == place
  {
    hide RejectedAs;
  }

  lemma {:induction false} LeasedOnly(s: Sys, t: Sys, engine: Engine, model: Bytes)
    requires s.sched.Picked? && Leased(s, t, engine, model)
    ensures SchedulerOnly(s, t) && t.sched.Admitted?
  {
  }

  lemma {:induction false} PutOffOnly(s: Sys, t: Sys)
    requires PutOff(s, t)
    ensures SchedulerOnly(s, t) && t.sched.Idle?
  {
  }

  lemma {:induction false} AdmitOnly(s: Sys, t: Sys)
    requires s.sched.Picked? && ValidCapacity(s.capacity) && ValidLedger(s.ledger) && AdmittedAs(s, t)
    ensures SchedulerOnly(s, t) && (t.sched.Idle? || t.sched.Admitted?)
  {
    hide Select, FailedFor, Leased, PutOff, Fits, FitsMachine, ValidRequirement, TooLate, SchedulerOnly;
    var w := s.sched.work;
    var c := Select(w.request, s.inventory);
    if TooLate(w.request, s.sched.now) {
      FailedOnly(s, t, Idle, w.id, DeadlineBeforeDispatch);
    } else if c.NoMatch? {
      FailedOnly(s, t, Idle, w.id, Unmatched(c.stage));
    } else if !FitsMachine(s.capacity, c.engine.resources) {
      FailedOnly(s, t, Idle, w.id, InsufficientCapacity);
    } else if Fits(s.capacity, s.ledger, c.engine.resources) {
      LeasedOnly(s, t, c.engine, c.model);
    } else {
      PutOffOnly(s, t);
    }
  }

  lemma {:induction false} AdmitNearer(s: Sys, t: Sys)
    requires s.sched.Picked? && ValidCapacity(s.capacity) && ValidLedger(s.ledger) && AdmittedAs(s, t)
    ensures Nearer(s, t)
  {
    hide AdmittedAs, SchedulerOnly, Nearer;
    AdmitOnly(s, t);
    OnlyIsNearer(s, t);
  }

  lemma {:induction false} StartsOnly(s: Sys, t: Sys, attempt: int)
    requires s.sched.Admitted?
    ensures StartsFor(s, t, attempt) ==> SchedulerOnly(s, t) && t.sched.Begun?
    ensures GivesUp(s, t) ==> SchedulerOnly(s, t) && t.sched.Returning?
  {
  }

  lemma {:induction false} BeginOnly(s: Sys, t: Sys)
    requires s.sched.Admitted? && s.sched.work.id in s.db.records && BegunAs(s, t)
    ensures SchedulerOnly(s, t) && (t.sched.Begun? || t.sched.Returning?)
  {
    hide FailedFor, StartedAs, StartsFor, GivesUp, TooLate, SchedulerOnly;
    var w := s.sched.work;
    if TooLate(w.request, s.clock) {
      FailedOnly(s, t, Returning(s.sched.lease), w.id, DeadlineBeforeDispatch);
    } else {
      StartsOnly(s, t, s.db.records[w.id].work.attemptCount + 1);
    }
  }

  lemma {:induction false} BeginNearer(s: Sys, t: Sys)
    requires s.sched.Admitted? && s.sched.work.id in s.db.records && BegunAs(s, t)
    ensures Nearer(s, t)
  {
    hide BegunAs, SchedulerOnly, Nearer;
    BeginOnly(s, t);
    OnlyIsNearer(s, t);
  }

  lemma {:induction false} SweepNearer(s: Sys)
    requires s.sched.Scanning?
    ensures Nearer(s, Step(s, SchedSweep))
  {
    SweepDecides(s);
    hide Step, SweptAs;
  }

  lemma {:induction false} LaunchNearer(s: Sys)
    requires Inv(s) && s.sched.Begun?
    ensures Nearer(s, Step(s, SchedLaunch(false, [])))
  {
    hide Inv, Step, TouchesOnly, SettledByFailure;
    LaunchDecides(s, false, []);
  }

  lemma {:induction false} ReturnNearer(s: Sys)
    requires Inv(s) && s.sched.Returning?
    ensures Nearer(s, Step(s, SchedReturn))
  {
    hide Inv, Step, Released;
    ReturnDecides(s);
  }

  /** A running scheduler can always move on, and every move brings it closer to the end of its loop. */
  lemma {:induction false} SchedulerMovesOn(s: Sys)
    requires Inv(s) && !s.sched.Idle?
    ensures Nearer(s, Step(s, NextOf(s.sched)))
  {
    hide Inv, Step, Nearer, AdmittedAs, BegunAs;
    match s.sched
    case Returning(_) => ReturnNearer(s);
    case Begun(_, _, _, _) => LaunchNearer(s);
    case Admitted(_, _, _, _, _) =>
      BeginDecides(s);
      BeginNearer(s, Step(s, SchedBegin));
    case Picked(_, _) =>
      AdmitDecides(s);
      AdmitNearer(s, Step(s, SchedAdmit));
    case Swept(_) =>
      TableIsOk(s);
      PickNearer(s);
    case Scanning(_) => SweepNearer(s);
  }

  lemma {:induction false} TableIsOk(s: Sys)
    requires Inv(s)
    ensures DbOk(s.db)
  {
    hide DbOk, TasksOk, Exclusive, SchedOk, OwnedOk, HoldersOk, CountersOk, FilesOk, ClientOk;
  }

  lemma {:induction false} SchedulerReturns(s: Sys) returns (actions: seq<Action>)
    requires Inv(s)
    ensures var t := Run(s, actions); Inv(t) && t.sched.Idle? && Internal(s, t) && t.tasks == s.tasks
    decreases Distance(s.sched)
  {
    if s.sched.Idle? {
      actions := [];
    } else {
      var a := NextOf(s.sched);
      SchedulerMovesOn(s);
      StepKeeps(s, a);
      hide Step, Inv;
      var later := SchedulerReturns(Step(s, a));
      actions := [a] + later;
      assert actions[1..] == later;
    }
  }

  // The executors

  /** How far an executor is from its exit. */
  function Weight(p: Phase): nat {
    match p
    case Launched => 6
    case Executing => 5
    case Decided(_) => 4
    case Committed(_) => 3
    case Settled => 1
    case _ => 2
  }

  /** The next action of an executor whose input cannot be read and whose call throws. */
  function NextStep(k: nat, p: Phase): Action {
    match p
    case Launched => TaskStart(k, false, [])
    case Executing => TaskThrow(k, [])
    case Committed(_) => TaskWrite(k)
    case Settled => TaskExit(k)
    case _ => TaskSettle(k)
  }

  /** Executor `k` has moved on or has left; the others and the scheduler are where they were. */
  predicate Lighter(s: Sys, t: Sys, k: nat)
    requires k in s.tasks
  {
    && Internal(s, t) && t.sched == s.sched && t.tasks - {k} == s.tasks - {k}
    && (k in t.tasks ==> Weight(t.tasks[k].phase) < Weight(s.tasks[k].phase))
  }

  lemma {:induction false} MovedIsLighter(s: Sys, t: Sys, k: nat, p: Phase)
    requires k in s.tasks && Weight(p) < Weight(s.tasks[k].phase)
    requires Internal(s, t) && t.sched == s.sched && t.tasks == Moved(s, k, p).tasks
    ensures Lighter(s, t, k)
  {
    hide Weight, Internal;
  }

  lemma {:induction false} EarlyNext(s: Sys, k: nat)
    requires k in s.tasks && (s.tasks[k].phase.Launched? || s.tasks[k].phase.Executing? || s.tasks[k].phase.Committed?)
    ensures Lighter(s, Step(s, NextStep(k, s.tasks[k].phase)), k)
  {
    match s.tasks[k].phase
    case Launched =>
      StartDecides(s, k, false, []);
      hide Step;
      MovedIsLighter(s, Step(s, TaskStart(k, false, [])), k, if s.stop then Settled else Phase.Raised([]));
    case Executing =>
      ThrowDecides(s, k, []);
      hide Step;
      MovedIsLighter(s, Step(s, TaskThrow(k, [])), k, Phase.Raised([]));
    case Committed(payload) =>
      WriteDecides(s, k);
      hide Step;
      MovedIsLighter(s, Step(s, TaskWrite(k)), k, Written(payload));
  }

  lemma {:induction false} LateNext(s: Sys, k: nat)
    requires Inv(s) && k in s.tasks && !s.tasks[k].phase.Settled?
    requires !s.tasks[k].phase.Launched? && !s.tasks[k].phase.Executing? && !s.tasks[k].phase.Committed?
    ensures Lighter(s, Step(s, TaskSettle(k)), k)
  {
    hide Inv, Step, TouchesOnly, SettledAs;
    SettlementDecides(s, k);
    MovedIsLighter(s, Step(s, TaskSettle(k)), k,
                   PhaseAfter(s.db.records[s.tasks[k].work.id].work.cancelRequested, s.tasks[k].phase));
  }

  lemma {:induction false} LastNext(s: Sys, k: nat)
    requires Inv(s) && k in s.tasks && s.tasks[k].phase.Settled?
    ensures Lighter(s, Step(s, TaskExit(k)), k)
  {
    hide Inv, Step, Released;
    ExitDecides(s, k);
  }

  /** An executor can always move on, and every move brings it closer to its exit. */
  lemma {:induction false} ExecutorMovesOn(s: Sys, k: nat)
    requires Inv(s) && k in s.tasks
    ensures Lighter(s, Step(s, NextStep(k, s.tasks[k].phase)), k)
  {
    hide Inv, Step, Lighter;
    match s.tasks[k].phase
    case Launched => EarlyNext(s, k);
    case Executing => EarlyNext(s, k);
    case Committed(_) => EarlyNext(s, k);
    case Settled => LastNext(s, k);
    case _ => LateNext(s, k);
  }

  lemma {:induction false} ExecutorLeaves(s: Sys, k: nat) returns (actions: seq<Action>)
    requires Inv(s) && k in s.tasks
    ensures var t := Run(s, actions); Inv(t) && Internal(s, t) && t.sched == s.sched && t.tasks == s.tasks - {k}
    decreases Weight(s.tasks[k].phase)
  {
    var a := NextStep(k, s.tasks[k].phase);
    var t := Step(s, a);
    ExecutorMovesOn(s, k);
    StepKeeps(s, a);
    hide Step, Inv;
    if k in t.tasks {
      var later := ExecutorLeaves(t, k);
      actions := [a] + later;
      assert actions[1..] == later;
    } else {
      RunOne(s, a);
      actions := [a];
      assert t.tasks == t.tasks - {k};
    }
  }

  lemma {:induction false} ExecutorsLeave(s: Sys) returns (actions: seq<Action>)
    requires Inv(s)
    ensures var t := Run(s, actions); Inv(t) && Internal(s, t) && t.sched == s.sched && t.tasks == map[]
    decreases |s.tasks|
  {
    hide Inv;
    if s.tasks == map[] {
      actions := [];
    } else {
      var k :| k in s.tasks;
      var first := ExecutorLeaves(s, k);
      var later := ExecutorsLeave(Run(s, first));
      actions := first + later;
      RunConcat(s, first, later);
    }
  }

  /**
   Nothing gets stuck: from every reachable state of a running Kernel its threads alone can bring it to rest, in which no
   executor is left, every lease is returned, every counter is zero and, unless the Kernel is stopping, no Work is running.
   */
  lemma {:induction false} CanComeToRest(before: seq<Action>) returns (actions: seq<Action>)
    requires Run(INIT, before).up
    ensures var s := Run(INIT, before); var t := Run(s, actions);
            && Internal(s, t) && t.sched.Idle? && t.tasks == map[] && t.ledger == map[]
            && (forall kind :: UsageOf(t.usage, kind) == 0)
            && (!s.stop ==> forall id :: id in t.db.records ==> !t.db.records[id].work.state.Running?)
  {
    Reachable(before);
    var s := Run(INIT, before);
    hide Run, Inv;
    var first := SchedulerReturns(s);
    var later := ExecutorsLeave(Run(s, first));
    actions := first + later;
    RunConcat(s, first, later);
    AtRest(Run(s, actions));
  }

  lemma {:induction false} AtRest(s: Sys)
    requires Inv(s) && s.up && s.sched.Idle? && s.tasks == map[]
    ensures s.ledger == map[] && forall kind :: UsageOf(s.usage, kind) == 0
    ensures !s.stop ==> forall id :: id in s.db.records ==> !s.db.records[id].work.state.Running?
  {
    hide DbOk, TasksOk, Exclusive, SchedOk, FilesOk, ClientOk;
    assert s.ledger == map[];
    assert Balanced(s.capacity, s.usage, s.ledger);
    if !s.stop {
      forall id | id in s.db.records
        ensures !s.db.records[id].work.state.Running?
      {
        assert !HasOwner(s.tasks, s.sched, id);
      }
    }
  }
}
