/** The way of a Work to its success, step by step: nothing on it can be missing, and nothing else has to happen. */
module Success {
  import opened Basics
  import opened StoreModel
  import opened Statements
  import opened ResourceModel
  import opened Selection
  import opened RecordInvariant
  import opened System
  import opened Invariant
  import opened Preservation
  import opened Effects
  import opened Lifecycle
  import opened Durability
  import opened Dispatch
  import opened Scheduling
  import opened Executors
  import opened Commands
  import opened Process

  /** From a sleeping scheduler to a running attempt. */
  function DispatchActions(): seq<Action> {
    [SchedWake, SchedSweep, SchedPick, SchedAdmit, SchedBegin, SchedLaunch(true, [])]
  }

  /** From a launched executor to its exit, with a worker that answers `payload`. */
  function AttemptActions(k: nat, payload: Bytes): seq<Action> {
    [TaskStart(k, true, []), TaskDecide(k, WorkerSucceeded(payload)), TaskSettle(k), TaskWrite(k), TaskSettle(k), TaskExit(k)]
  }

  /** The Work would be the scheduler's choice now, has time left, and fits beside all live leases. */
  ghost predicate CanDispatch(s: Sys, id: WorkId, engine: Engine, model: Bytes)
    requires ValidCapacity(s.capacity) && ValidLedger(s.ledger)
  {
    && s.up && !s.stop && s.sched.Idle?
    && ComesFirst(s.db, s.clock, id) && !TooLate(s.db.records[id].work.request, s.clock)
    && Select(s.db.records[id].work.request, s.inventory) == Chosen(engine, model)
    && ValidRequirement(engine.resources) && FitsMachine(s.capacity, engine.resources)
    && Fits(s.capacity, s.ledger, engine.resources)
  }

  lemma {:induction false} RunSix(s: Sys, a: Action, b: Action, c: Action, d: Action, e: Action, f: Action)
    ensures Run(s, [a, b, c, d, e, f]) == Step(Step(Step(Step(Step(Step(s, a), b), c), d), e), f)
  {
    hide Step, Run;
    RunTwo(s, a, b);
    RunTwo(Step(Step(s, a), b), c, d);
    RunTwo(Step(Step(Step(Step(s, a), b), c), d), e, f);
    RunConcat(s, [a, b], [c, d]);
    RunConcat(s, [a, b, c, d], [e, f]);
    assert [a, b] + [c, d] == [a, b, c, d] && [a, b, c, d] + [e, f] == [a, b, c, d, e, f];
  }

  lemma {:induction false} SweepSpares(db: Db, after: Db, now: int, id: WorkId)
    requires SweptAs(db, after, now) && ComesFirst(db, now, id) && !TooLate(db.records[id].work.request, now)
    ensures ComesFirst(after, now, id) && after.records[id] == db.records[id]
  {
    forall other | other in after.records && MayStart(after.records[other].work, now)
      ensures ServedBefore(after.records[id].work, after.records[other].work)
    {
      assert after.records[other] == db.records[other];
    }
  }

  /** The scheduler has picked the Work at the present time. */
  lemma {:induction false} ScanPicks(s: Sys, id: WorkId)
    requires Inv(s) && s.up && !s.stop && s.sched.Idle?
    requires ComesFirst(s.db, s.clock, id) && !TooLate(s.db.records[id].work.request, s.clock)
    ensures var t := Step(Step(Step(s, SchedWake), SchedSweep), SchedPick);
            && Inv(t) && id in t.db.records && t.db.records[id] == s.db.records[id]
            && t.db == Expire(s.db, s.clock)
            && t == s.(db := t.db, sched := Picked(s.clock, s.db.records[id].work))
  {
    hide Step, Inv, SweptAs, ComesFirst, DbOk, TooLate, Expire;
    WakeDecides(s);
    StepKeeps(s, SchedWake);
    var a := Step(s, SchedWake);
    SweepDecides(a);
    SweepIsExpire(a);
    StepKeeps(a, SchedSweep);
    var b := Step(a, SchedSweep);
    StepKeeps(b, SchedPick);
    SweepSpares(s.db, b.db, s.clock, id);
    TableIsOk(b);
    ScanDecides(b);
    PickFrame(b);
  }

  lemma {:induction false} SweepIsExpire(s: Sys)
    requires s.sched.Scanning?
    ensures Step(s, SchedSweep).db == Expire(s.db, s.sched.now)
  {
    hide Expire;
  }

  /** The lease is taken, the attempt is started and an executor carries it. */
  lemma {:induction false} StartsPicked(s: Sys, id: WorkId, engine: Engine, model: Bytes)
    requires Inv(s) && id in s.db.records && s.sched == Picked(s.clock, s.db.records[id].work)
    requires ValidCapacity(s.capacity) && ValidLedger(s.ledger)
    requires var w := s.db.records[id].work;
             && w.state.Queued? && !w.cancelRequested && !TooLate(w.request, s.clock)
             && Select(w.request, s.inventory) == Chosen(engine, model)
    requires ValidRequirement(engine.resources) && FitsMachine(s.capacity, engine.resources)
    requires Fits(s.capacity, s.ledger, engine.resources)
    ensures var t := Step(Step(Step(s, SchedAdmit), SchedBegin), SchedLaunch(true, []));
            var w, k := s.db.records[id].work, s.nextLease;
            && Inv(t) && StartedAs(s.db, t.db, id, engine.id, model, s.clock)
            && t == s.(db := t.db, usage := t.usage, ledger := s.ledger[k := engine.resources], nextLease := k + 1,
                       tasks := s.tasks[k := Task(w, w.attemptCount + 1, s.clock, Launched)], sched := Idle)
  {
    hide Inv, Step, Select, Fits, FitsMachine, ValidRequirement, StartedAs, RejectedAs, TouchesOnly;
    AdmitDecides(s);
    StepKeeps(s, SchedAdmit);
    var a := Step(s, SchedAdmit);
    IdIsKey(s, id);
    BeginDecides(a);
    StepKeeps(a, SchedBegin);
    var b := Step(a, SchedBegin);
    LaunchDecides(b, true, []);
    StepKeeps(b, SchedLaunch(true, []));
  }

  lemma {:induction false} IdIsKey(s: Sys, id: WorkId)
    requires Inv(s) && id in s.db.records
    ensures s.db.records[id].work.id == id
  {
    RecordIsKept(s, id);
  }

  /** The executor calls its worker, which succeeds, and nothing has asked for a cancellation. */
  lemma {:induction false} CallSucceeds(s: Sys, k: nat, payload: Bytes)
    requires Inv(s) && !s.stop && k in s.tasks && s.tasks[k].phase.Launched?
    requires var id := s.tasks[k].work.id;
             id in s.inputs && id in s.db.records && !s.db.records[id].work.cancelRequested
    ensures var t := Step(Step(Step(s, TaskStart(k, true, [])), TaskDecide(k, WorkerSucceeded(payload))), TaskSettle(k));
            && Inv(t) && t.tasks == s.tasks[k := s.tasks[k].(phase := Committed(payload))]
            && t == s.(tasks := t.tasks, db := t.db, outputs := t.outputs)
            && t.db == s.db
  {
    hide Inv, Step, TouchesOnly;
    StartDecides(s, k, true, []);
    StepKeeps(s, TaskStart(k, true, []));
    var a := Step(s, TaskStart(k, true, []));
    CallEnds(a, k, WorkerSucceeded(payload));
    StepKeeps(a, TaskDecide(k, WorkerSucceeded(payload)));
    var b := Step(a, TaskDecide(k, WorkerSucceeded(payload)));
    SettlementDecides(b, k);
    StepKeeps(b, TaskSettle(k));
    var c := Step(b, TaskSettle(k));
    SameTable(b.db, c.db, s.tasks[k].work.id);
  }

  lemma {:induction false} SameTable(db: Db, after: Db, id: WorkId)
    requires TouchesOnly(db, after, id) && id in db.records && after.records[id] == db.records[id]
    ensures after == db
  {
    assert after.records == db.records;
  }

  /** The executor writes the result, records its success and leaves. */
  lemma {:induction false} RecordsSuccess(s: Sys, k: nat)
    requires Inv(s) && k in s.tasks && s.tasks[k].phase.Committed?
    ensures ValidLedger(s.ledger)
    ensures var t := Step(Step(Step(s, TaskWrite(k)), TaskSettle(k)), TaskExit(k));
            var id := s.tasks[k].work.id;
            && Inv(t) && id in s.db.records && TouchesOnly(s.db, t.db, id)
            && ClosedAs(s.db.records[id], t.db.records[id], Succeeded, Empty, Completed, Empty, s.clock)
            && Released(s, t, k)
            && t == s.(tasks := s.tasks - {k}, results := s.results[id := s.tasks[k].phase.payload], db := t.db,
                       usage := t.usage, ledger := t.ledger)
  {
    hide Inv, Step, TouchesOnly, ClosedAs, Released;
    WriteDecides(s, k);
    StepKeeps(s, TaskWrite(k));
    var a := Step(s, TaskWrite(k));
    SettlementDecides(a, k);
    StepKeeps(a, TaskSettle(k));
    var b := Step(a, TaskSettle(k));
    ExitDecides(b, k);
    StepKeeps(b, TaskExit(k));
    assert b.tasks - {k} == s.tasks - {k};
    SameRelease(s, b, Step(b, TaskExit(k)), k);
  }

  lemma {:induction false} SameRelease(s: Sys, b: Sys, t: Sys, k: nat)
    requires ValidLedger(b.ledger) && b.ledger == s.ledger && b.usage == s.usage && Released(b, t, k)
    ensures ValidLedger(s.ledger) && Released(s, t, k)
  {
  }

  /** The Work's first, or next, attempt has succeeded on this engine and model, and its row says so. */
  predicate SucceededWith(r: Record, t: Record, engine: Bytes, model: Bytes, now: int) {
    var n := r.work.attemptCount + 1;
    && t.work == r.work.(state := Succeeded, attemptCount := n, selectedEngine := engine, selectedModel := model,
                         technicalFailure := Empty)
    && t.rows == r.rows[n := Attempt(engine, model, now, Some(now), Completed, Empty)]
  }

  lemma {:induction false} StartedThenClosed(db: Db, mid: Db, after: Db, id: WorkId, engine: Bytes, model: Bytes, now: int)
    requires id in db.records && StartedAs(db, mid, id, engine, model, now) && TouchesOnly(mid, after, id)
    requires ClosedAs(mid.records[id], after.records[id], Succeeded, Empty, Completed, Empty, now)
    ensures TouchesOnly(db, after, id) && SucceededWith(db.records[id], after.records[id], engine, model, now)
  {
  }

  lemma {:induction false} Dispatched(s: Sys, id: WorkId, engine: Engine, model: Bytes)
    requires Inv(s) && ValidCapacity(s.capacity) && ValidLedger(s.ledger) && CanDispatch(s, id, engine, model)
    ensures var t := Run(s, DispatchActions()); var w, k := s.db.records[id].work, s.nextLease;
            && Inv(t) && w.id == id
            && id in Expire(s.db, s.clock).records && Expire(s.db, s.clock).records[id] == s.db.records[id]
            && StartedAs(Expire(s.db, s.clock), t.db, id, engine.id, model, s.clock)
            && t == s.(db := t.db, usage := t.usage, ledger := s.ledger[k := engine.resources], nextLease := k + 1,
                       tasks := s.tasks[k := Task(w, w.attemptCount + 1, s.clock, Launched)], sched := Idle)
  {
    hide Inv, Step, Run, Select, Fits, FitsMachine, ValidRequirement, StartedAs, Expire, ValidLedger, ValidCapacity, TooLate;
    RunSix(s, SchedWake, SchedSweep, SchedPick, SchedAdmit, SchedBegin, SchedLaunch(true, []));
    ScanPicks(s, id);
    IdIsKey(s, id);
    var t := Step(Step(Step(s, SchedWake), SchedSweep), SchedPick);
    FirstMayStart(s.db, s.clock, id);
    StartsPicked(t, id, engine, model);
  }

  lemma {:induction false} FirstMayStart(db: Db, now: int, id: WorkId)
    requires ComesFirst(db, now, id)
    ensures id in db.records && db.records[id].work.state.Queued? && !db.records[id].work.cancelRequested
  {
  }

  lemma {:induction false} NewLease(s: Sys)
    requires Inv(s)
    ensures s.nextLease !in s.tasks && s.nextLease !in s.ledger
  {
    hide DbOk, TasksOk, Exclusive, SchedOk, OwnedOk, CountersOk, FilesOk, ClientOk;
  }

  lemma {:induction false} InputIsThere(s: Sys, id: WorkId)
    requires Inv(s) && id in s.db.records && s.db.records[id].work.state.Queued?
    ensures id in s.inputs && !s.db.records[id].work.acknowledged
  {
    RecordIsKept(s, id);
    hide DbOk, TasksOk, Exclusive, SchedOk, OwnedOk, HoldersOk, CountersOk, ClientOk, ResultOk;
  }

  lemma {:induction false} ReleaseGivesBack(s: Sys, mid: Sys, t: Sys, k: nat, r: Requirement)
    requires ValidLedger(mid.ledger) && k !in s.ledger && mid.ledger == s.ledger[k := r] && Released(mid, t, k)
    ensures t.ledger == s.ledger
  {
    assert s.ledger[k := r] - {k} == s.ledger;
  }

  /** A launched executor can always bring its attempt to a success, with any answer of its worker. */
  lemma {:induction false} AttemptSucceeds(s: Sys, k: nat, payload: Bytes)
    requires Inv(s) && !s.stop && k in s.tasks && s.tasks[k].phase.Launched?
    requires var id := s.tasks[k].work.id;
             id in s.inputs && id in s.db.records && !s.db.records[id].work.cancelRequested
    ensures ValidLedger(s.ledger)
    ensures var t := Run(s, AttemptActions(k, payload)); var id := s.tasks[k].work.id;
            && Inv(t) && TouchesOnly(s.db, t.db, id) && Released(s, t, k)
            && ClosedAs(s.db.records[id], t.db.records[id], Succeeded, Empty, Completed, Empty, s.clock)
            && t == s.(tasks := s.tasks - {k}, results := s.results[id := payload], outputs := t.outputs, db := t.db,
                       usage := t.usage, ledger := t.ledger)
  {
    hide Inv, Step, Run, ClosedAs, TouchesOnly, Released;
    CallSucceeds(s, k, payload);
    var u := Step(Step(Step(s, TaskStart(k, true, [])), TaskDecide(k, WorkerSucceeded(payload))), TaskSettle(k));
    RecordsSuccess(u, k);
    RunSix(s, TaskStart(k, true, []), TaskDecide(k, WorkerSucceeded(payload)), TaskSettle(k), TaskWrite(k), TaskSettle(k),
           TaskExit(k));
    assert u.tasks - {k} == s.tasks - {k};
    SameRelease(s, u, Run(s, AttemptActions(k, payload)), k);
  }

  /**
   A Work that the scheduler would choose, that has time left and fits beside the live leases can always succeed: its
   dispatch, its call and its commit lead, with any answer of the worker, to an available result that is this answer, and
   every lease and executor is as before.
   */
  lemma {:induction false} DispatchCanSucceed(s: Sys, id: WorkId, engine: Engine, model: Bytes, payload: Bytes)
    requires Inv(s) && ValidCapacity(s.capacity) && ValidLedger(s.ledger) && CanDispatch(s, id, engine, model)
    ensures var t := Run(s, DispatchActions() + AttemptActions(s.nextLease, payload));
            && Inv(t) && ResultAvailable(t, id) && t.results == s.results[id := payload] && t.inputs == s.inputs
            && id in s.db.records && SucceededWith(s.db.records[id], t.db.records[id], engine.id, model, s.clock)
            && t.tasks == s.tasks && t.ledger == s.ledger && t.sched.Idle? && t.up && t.client == s.client
  {
    hide Inv, Step, Run, Select, StartedAs, ClosedAs, TouchesOnly, Expire, ValidLedger, ValidCapacity, CanDispatch, Released,
         ComesFirst, SucceededWith, DispatchActions, AttemptActions, ResultAvailable;
    var k := s.nextLease;
    DispatchFacts(s, id, engine, model);
    NewLease(s);
    InputIsThere(s, id);
    Dispatched(s, id, engine, model);
    RunConcat(s, DispatchActions(), AttemptActions(k, payload));
    var t := Run(s, DispatchActions());
    StartedFlags(Expire(s.db, s.clock), t.db, id, engine.id, model, s.clock);
    AttemptSucceeds(t, k, payload);
    Joined(s, t, Run(t, AttemptActions(k, payload)), id, engine, model, payload);
  }

  lemma {:induction false} DispatchFacts(s: Sys, id: WorkId, engine: Engine, model: Bytes)
    requires ValidCapacity(s.capacity) && ValidLedger(s.ledger) && CanDispatch(s, id, engine, model)
    ensures s.up && !s.stop && id in s.db.records
    ensures s.db.records[id].work.state.Queued? && !s.db.records[id].work.cancelRequested
  {
    hide Select, Fits;
  }

  /** The dispatch and the attempt, put together. */
  lemma {:induction false} Joined(s: Sys, t: Sys, v: Sys, id: WorkId, engine: Engine, model: Bytes, payload: Bytes)
    requires var k := s.nextLease;
             && k !in s.tasks && k !in s.ledger && id in s.db.records && !s.db.records[id].work.acknowledged
             && t.ledger == s.ledger[k := engine.resources] && k in t.tasks && t.tasks - {k} == s.tasks
             && t.results == s.results
             && ValidLedger(t.ledger) && Released(t, v, k)
             && v == t.(tasks := t.tasks - {k}, results := t.results[id := payload], outputs := v.outputs, db := v.db,
                        usage := v.usage, ledger := v.ledger)
    requires var db := Expire(s.db, s.clock);
             && id in db.records && db.records[id] == s.db.records[id]
             && StartedAs(db, t.db, id, engine.id, model, s.clock) && id in t.db.records && TouchesOnly(t.db, v.db, id)
             && ClosedAs(t.db.records[id], v.db.records[id], Succeeded, Empty, Completed, Empty, s.clock)
    ensures ResultAvailable(v, id) && v.results == s.results[id := payload]
    ensures SucceededWith(s.db.records[id], v.db.records[id], engine.id, model, s.clock)
    ensures v.tasks == s.tasks && v.ledger == s.ledger
  {
    StartedThenClosed(Expire(s.db, s.clock), t.db, v.db, id, engine.id, model, s.clock);
    hide StartedAs, ClosedAs, Expire, ValidLedger, SucceededWith, ResultAvailable;
    SuccessIsAvailable(s.db.records[id], v, id, engine.id, model, s.clock);
    ReleaseGivesBack(s, t, v, s.nextLease, engine.resources);
  }

  lemma {:induction false} StartedFlags(db: Db, after: Db, id: WorkId, engine: Bytes, model: Bytes, now: int)
    requires id in db.records && StartedAs(db, after, id, engine, model, now)
    ensures id in after.records && after.records[id].work.cancelRequested == db.records[id].work.cancelRequested
  {
  }

  lemma {:induction false} SuccessIsAvailable(r: Record, t: Sys, id: WorkId, engine: Bytes, model: Bytes, now: int)
    requires id in t.db.records && SucceededWith(r, t.db.records[id], engine, model, now) && id in t.results
    requires !r.work.acknowledged
    ensures ResultAvailable(t, id)
  {
  }

  // The first Work of a new Kernel

  /** A well-formed submission that may start now and has time left. */
  predicate FreshWork(w: Work, now: int) {
    && w.state.Queued? && w.nextAttemptAt == w.request.eligibleAt && w.request.createdAt == now
    && w.request.maxAttempts >= 1 && w.request.retryDelay >= 0
    && w.request.eligibleAt <= now && !TooLate(w.request, now)
  }

  /** The Kernel is up, with nothing to do. */
  function Booted(inventory: seq<Engine>, c: Capacity, now: int): Sys {
    Sys(true, false, now, EMPTY_DB, map[], map[], map[], Client.Ready, Idle, map[], 0, c, NO_USAGE, map[], inventory)
  }

  lemma {:induction false} Boots(inventory: seq<Engine>, c: Capacity, now: int)
    requires Configured(inventory, c)
    ensures Run(INIT, [ClockTo(now), Start(inventory, c)]) == Booted(inventory, c, now) && Inv(Booted(inventory, c, now))
  {
    InitHolds();
    RunTwo(INIT, ClockTo(now), Start(inventory, c));
    StepKeeps(INIT, ClockTo(now));
    var s := Step(INIT, ClockTo(now));
    assert s == INIT.(clock := now);
    StepKeeps(s, Start(inventory, c));
    StartRecovers(s, inventory, c);
    hide Inv, Run, Step, SettledByRecovery, Configured;
    assert Step(s, Start(inventory, c)).db.records == map[];
  }

  /** After its submission the Work is the one to choose, and it fits. */
  lemma {:induction false} Submits(inventory: seq<Engine>, c: Capacity, now: int, w: Work, payload: Bytes, engine: Engine,
                                   model: Bytes)
    requires Configured(inventory, c) && FreshWork(w, now)
    requires Select(w.request, inventory) == Chosen(engine, model) && FitsMachine(c, engine.resources)
    ensures var s := Run(Booted(inventory, c, now), [WriteInput(w, payload), InsertWork]);
            && Inv(s) && ValidCapacity(s.capacity) && ValidLedger(s.ledger) && CanDispatch(s, w.id, engine, model)
            && s.nextLease == 0 && s.client.Ready? && s.inputs == map[w.id := payload] && s.results == map[]
            && w.id in s.db.records && s.db.records[w.id].work.request == w.request
  {
    Boots(inventory, c, now);
    var b := Booted(inventory, c, now);
    SubmissionTakes(b, w, payload);
    RunKeeps(b, [WriteInput(w, payload), InsertWork]);
    var s := Run(b, [WriteInput(w, payload), InsertWork]);
    SubmitMeaning(EMPTY_DB, w);
    hide Run, Step, Submit, Inv, Select, Configured;
    OnlyWorkFirst(s.db, w, now);
    LedgerFacts(s);
    ChosenFits(s, w.request, engine, model);
    hide ComesFirst, Fits, ValidRequirement, FitsMachine, TooLate, Balanced, ValidLedger;
  }

  lemma {:induction false} OnlyWorkFirst(db: Db, w: Work, now: int)
    requires FreshWork(w, now) && db == Submit(EMPTY_DB, w)
    ensures ComesFirst(db, now, w.id)
  {
  }

  lemma {:induction false} LedgerFacts(s: Sys)
    requires Inv(s) && s.up
    ensures CountersOk(s.up, s.inventory, s.capacity, s.usage, s.ledger)
    ensures ValidCapacity(s.capacity) && ValidLedger(s.ledger) && Balanced(s.capacity, s.usage, s.ledger)
  {
    hide DbOk, TasksOk, Exclusive, SchedOk, OwnedOk, HoldersOk, FilesOk, ClientOk;
  }

  lemma {:induction false} ChosenFits(s: Sys, r: Request, engine: Engine, model: Bytes)
    requires CountersOk(s.up, s.inventory, s.capacity, s.usage, s.ledger) && s.up && s.ledger == map[]
    requires Select(r, s.inventory) == Chosen(engine, model) && FitsMachine(s.capacity, engine.resources)
    ensures ValidCapacity(s.capacity) && ValidLedger(s.ledger) && ValidRequirement(engine.resources)
    ensures Fits(s.capacity, s.ledger, engine.resources)
  {
    SelectMeaning(r, s.inventory);
    hide Select, PassesAll, Survives, IsFirstEmpty;
    assert ValidRequirement(engine.resources);
    NoLeaseNoStall(s.capacity, s.usage, s.ledger, engine.resources);
    ReserveIsExact(s.capacity, s.usage, s.ledger, engine.resources);
    hide Fits, Balanced, Decide, ValidRequirement;
  }

  /**
   A new Kernel with a valid configuration can take any well-formed Work that some engine suits and the machine can hold,
   run it, deliver any answer of its worker as the result, and, once that is acknowledged, leave no file behind.
   */
  lemma {:induction false} FirstWorkSucceeds(inventory: seq<Engine>, c: Capacity, now: int, w: Work, payload: Bytes,
                                             answer: Bytes, engine: Engine, model: Bytes)
    requires Configured(inventory, c) && FreshWork(w, now)
    requires Select(w.request, inventory) == Chosen(engine, model) && FitsMachine(c, engine.resources)
    ensures var s := Run(Run(INIT, [ClockTo(now), Start(inventory, c)]), [WriteInput(w, payload), InsertWork]);
            var t := Run(s, DispatchActions() + AttemptActions(0, answer));
            var u := Run(Step(t, AcknowledgeWork(w.id)), [RemoveInput, RemoveResult]);
            && w.id in s.db.records && s.db.records[w.id].work.request == w.request && s.inputs == map[w.id := payload]
            && ResultAvailable(t, w.id) && t.results == map[w.id := answer]
            && AcknowledgedIn(u, w.id) && u.inputs == map[] && u.results == map[] && u.tasks == map[] && u.ledger == map[]
  {
    Boots(inventory, c, now);
    Submits(inventory, c, now, w, payload, engine, model);
    hide Run, Step, CanDispatch, DispatchActions, AttemptActions, ResultAvailable, Select, SucceededWith, Inv, Configured;
    var s := Run(Booted(inventory, c, now), [WriteInput(w, payload), InsertWork]);
    DispatchCanSucceed(s, w.id, engine, model, answer);
    var t := Run(s, DispatchActions() + AttemptActions(0, answer));
    AcknowledgementTakes(t, w.id);
  }
}
