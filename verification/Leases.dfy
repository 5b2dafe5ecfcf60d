/** Resource leases in the running system: conservation, one holder each, and no permanent stall. */
module Leases {
  import opened Basics
  import opened StoreModel
  import opened ResourceModel
  import opened Selection
  import opened RecordInvariant
  import opened System
  import opened Invariant
  import opened Preservation
  import opened Effects
  import opened Lifecycle

  /**
   In every reachable state of a running Kernel each counter is the sum over the live leases and within the capacity,
   and every live lease belongs to the scheduler's current dispatch or to exactly one executor. When the scheduler holds
   none and no executor is left, everything has been returned.
   */
  lemma {:induction false} LeaseConservation(actions: seq<Action>, kind: Kind)
    requires Run(INIT, actions).up
    ensures var s := Run(INIT, actions);
            && ValidCapacity(s.capacity) && ValidLedger(s.ledger)
            && UsageOf(s.usage, kind) == Total(s.ledger, kind)
            && (kind != Vram([]) ==> Total(s.ledger, kind) <= CapacityOf(s.capacity, kind))
            && (forall k :: k in s.ledger <==> k in s.tasks || HeldByScheduler(s.sched, k))
            && (forall k :: k in s.tasks ==> !HeldByScheduler(s.sched, k))
            && (s.tasks == map[] && (s.sched.Idle? || s.sched.Scanning? || s.sched.Swept? || s.sched.Picked?) ==>
                  UsageOf(s.usage, kind) == 0)
  {
    Reachable(actions);
    var s := Run(INIT, actions);
    hide Run, DbOk, TasksOk, Exclusive, SchedOk, OwnedOk, FilesOk, ClientOk;
    if s.tasks == map[] && !s.sched.Admitted? && !s.sched.Begun? && !s.sched.Returning? {
      assert s.ledger == map[];
    }
  }

  /** The scheduler waits: every live lease is held by an executor in flight, and there is at least one. */
  ghost predicate WaitsForExecutor(s: Sys) {
    s.sched.Idle? && s.ledger != map[] && forall k :: k in s.ledger ==> k in s.tasks
  }

  predicate StillQueued(s: Sys, id: WorkId) {
    id in s.db.records && s.db.records[id].work.state.Queued?
  }

  lemma {:induction false} RejectDequeues(s: Sys, text: Diagnosis)
    requires s.sched.Picked?
    ensures !StillQueued(RejectPicked(s, text), s.sched.work.id)
  {
  }

  /** A refusal means that some lease is alive. */
  lemma {:induction false} RefusalNeedsLease(s: Sys, engine: Engine, model: Bytes)
    requires Inv(s) && s.sched.Picked?
    requires Select(s.sched.work.request, s.inventory) == Chosen(engine, model)
    requires CanEverReserve(s.capacity, engine.resources)
    requires !Decide(s.capacity, s.usage, engine.resources).Granted?
    ensures s.ledger != map[] && forall k :: k in s.ledger ==> k in s.tasks
  {
    hide DbOk, TasksOk, Exclusive, SchedOk, OwnedOk, FilesOk, ClientOk, Decide, CanEverReserve;
    SelectMeaning(s.sched.work.request, s.inventory);
    var i: nat :| IsFirstMatch(s.sched.work.request, s.inventory, i) && s.inventory[i] == engine;
    hide Select, IsFirstMatch, PassesAll, Survives, IsFirstEmpty;
    assert ValidRequirement(engine.resources);
    if s.ledger == map[] {
      NoLeaseNoStall(s.capacity, s.usage, s.ledger, engine.resources);
      assert false;
    }
  }

  /**
   Having picked a Work, the scheduler takes it out of the queue, reserves its resources, or waits for a lease that an
   executor in flight holds. Nothing else can hold it up.
   */
  lemma {:induction false} NoStall(s: Sys)
    requires Inv(s) && s.sched.Picked?
    ensures var t := DoAdmit(s); var id := s.sched.work.id;
            !StillQueued(t, id) || (t.sched.Admitted? && t.sched.work.id == id) || WaitsForExecutor(t)
  {
    var w := s.sched.work;
    hide Inv, Select, AfterReserve, Decide, CanEverReserve, DeadlineReached, StillQueued, RejectPicked;
    if DeadlineReached(w.request, s.sched.now) {
      RejectDequeues(s, DeadlineBeforeDispatch);
    } else {
      match Select(w.request, s.inventory)
      case NoMatch(stage) =>
        RejectDequeues(s, Unmatched(stage));
      case Chosen(engine, model) =>
        if !CanEverReserve(s.capacity, engine.resources) {
          RejectDequeues(s, InsufficientCapacity);
        } else {
          AdmitsTo(s, engine, model);
          hide DoAdmit;
          if !Decide(s.capacity, s.usage, engine.resources).Granted? {
            RefusalNeedsLease(s, engine, model);
          }
        }
    }
  }

  /** Having reserved the resources, the scheduler always takes the Work out of the queue. */
  lemma {:induction false} AdmittedLeavesQueue(s: Sys)
    requires Inv(s) && s.sched.Admitted?
    ensures !StillQueued(DoBegin(s), s.sched.work.id)
  {
    hide TasksOk, Exclusive, OwnedOk, HoldersOk, CountersOk, FilesOk, ClientOk, Select, Eligible, RecordOk;
    var id := s.sched.work.id;
    AdmittedIsNew(s, id);
    var r := s.db.records[id];
    assert SnapshotOk(s.db, s.sched.work);
    EligibleStartable(s);
    hide Inv, SnapshotOk, SchedOk, DbOk;
    BeginDequeues(s);
  }

  lemma {:induction false} EligibleStartable(s: Sys)
    requires SchedOk(s.sched, s.db, s.tasks, s.inventory) && s.sched.Admitted?
    ensures s.sched.work.id in s.db.records
    ensures s.db.records[s.sched.work.id].work.state.Queued? ==> Startable(s.db.records[s.sched.work.id])
  {
    hide Select;
  }

  lemma {:induction false} BeginDequeues(s: Sys)
    requires s.sched.Admitted? && s.sched.work.id in s.db.records
    requires !BeginResult(s.db, s.sched.work.id).KeyConflict?
    requires s.db.records[s.sched.work.id].work.state.Queued? ==> Startable(s.db.records[s.sched.work.id])
    ensures !StillQueued(DoBegin(s), s.sched.work.id)
  {
    BeginsDb(s);
    hide DeadlineReached, DoBegin;
    if s.db.records[s.sched.work.id].work.state.Queued? {
      assert BeginResult(s.db, s.sched.work.id).Began?;
    }
  }
}
