/** Every action of every actor keeps the invariant, and changes the table only by progress of its rows. */
module Preservation {
  import opened Basics
  import opened StoreModel
  import opened ResourceModel
  import opened Selection
  import opened RecordInvariant
  import opened System
  import opened Invariant

  // What a change of the database leaves intact

  lemma {:induction false} PutKeepsDb(db: Db, id: WorkId, r: Record)
    requires DbOk(db) && id in db.records
    requires RecordOk(id, r) && Progress(db.records[id], r)
    ensures DbOk(Put(db, id, r)) && DbProgress(db, Put(db, id, r))
  {
  }

  lemma {:induction false} MapKeepsDb(db: Db, after: Db)
    requires DbOk(db)
    requires after.records.Keys == db.records.Keys && after.lastRow == db.lastRow
    requires forall id :: id in db.records ==> RecordOk(id, after.records[id]) && Progress(db.records[id], after.records[id])
    ensures DbOk(after) && DbProgress(db, after)
  {
  }

  /** Executors are untouched by a step that leaves their Works running. */
  lemma {:induction false} TasksFrame(stop: bool, db: Db, outputs: Outputs, results: Files, tasks: Tasks, after: Db)
    requires TasksOk(stop, db, outputs, results, tasks) && DbProgress(db, after)
    requires forall k :: k in tasks && !tasks[k].phase.Settled? ==>
                           tasks[k].work.id in after.records && after.records[tasks[k].work.id].work.state.Running?
    ensures TasksOk(stop, after, outputs, results, tasks)
  {
  }

  /** A step that starts no Work and removes no executor of a running Work keeps ownership. */
  lemma {:induction false} OwnedFrame(up: bool, stop: bool, db: Db, tasks: Tasks, sched: Scheduler, db': Db, tasks': Tasks, sched': Scheduler)
    requires OwnedOk(up, stop, db, tasks, sched)
    requires forall id :: id in db'.records && db'.records[id].work.state.Running? ==>
                            id in db.records && db.records[id].work.state.Running?
    requires forall k, id :: Owns(tasks, k, id) && id in db'.records && db'.records[id].work.state.Running? ==>
                               Owns(tasks', k, id)
    requires sched.Begun? && sched.work.id in db'.records && db'.records[sched.work.id].work.state.Running? ==>
               HasOwner(tasks', sched', sched.work.id)
    ensures OwnedOk(up, stop, db', tasks', sched')
  {
    if up && !stop {
      forall id | id in db'.records && db'.records[id].work.state.Running?
        ensures HasOwner(tasks', sched', id)
      {
        assert HasOwner(tasks, sched, id);
        if k :| Owns(tasks, k, id) {
          assert Owns(tasks', k, id);
        }
      }
    }
  }

  // Client commands

  lemma {:induction false} WriteInputKeeps(s: Sys, w: Work, payload: Bytes)
    requires Inv(s)
    ensures Kept(s, DoWriteInput(s, w, payload))
  {
    NoProgressIsProgress(s.db);
    hide DbOk, TasksOk, Exclusive, SchedOk, OwnedOk, HoldersOk, CountersOk, ResultOk;
  }

  lemma {:induction false} FilesFrame(db: Db, inputs: Files, results: Files, outputs: Outputs, after: Db)
    requires FilesOk(db, inputs, results, outputs) && DbProgress(db, after)
    requires forall id :: id in after.records ==> id in db.records
    requires forall id :: id in after.records && after.records[id].work.state.Succeeded? ==>
                            db.records[id].work.state.Succeeded? || ResultOk(results, outputs, id, after.records[id].work)
    ensures FilesOk(after, inputs, results, outputs)
  {
    forall id | id in after.records
      ensures !after.records[id].work.acknowledged ==> id in inputs
      ensures ResultOk(results, outputs, id, after.records[id].work)
    {
      assert Progress(db.records[id], after.records[id]);
    }
  }

  /** The scheduler's snapshot survives a step that leaves its Work alone or cancels it. */
  lemma {:induction false} SchedFrame(sched: Scheduler, db: Db, tasks: Tasks, inventory: seq<Engine>, after: Db)
    requires SchedOk(sched, db, tasks, inventory) && DbProgress(db, after)
    requires forall id :: id in db.records && !db.records[id].work.state.Running? ==>
                            || after.records[id].work == db.records[id].work
                            || after.records[id].work.state.Cancelled?
                            || db.records[id].work.state.Succeeded?
    requires forall id :: id in db.records && db.records[id].work.state.Running? && sched.Begun? && sched.work.id == id ==>
                            after.records[id].work.state.Running?
    ensures SchedOk(sched, after, tasks, inventory)
  {
  }

  /**
   Rewriting one record keeps every part of the invariant about the table, the executors and the files, provided no
   executor of the Work is left behind and a success comes with its result.
   */
  lemma {:induction false} LocalChange(s: Sys, tasks: Tasks, id: WorkId, r: Record)
    requires DbOk(s.db) && id in s.db.records
    requires TasksOk(s.stop, s.db, s.outputs, s.results, tasks)
    requires FilesOk(s.db, s.inputs, s.results, s.outputs)
    requires RecordOk(id, r) && Progress(s.db.records[id], r)
    requires !r.work.state.Running? ==> forall k :: !Owns(tasks, k, id)
    requires r.work.state.Succeeded? ==>
               s.db.records[id].work.state.Succeeded? || ResultOk(s.results, s.outputs, id, r.work)
    ensures DbOk(Put(s.db, id, r)) && DbProgress(s.db, Put(s.db, id, r))
    ensures TasksOk(s.stop, Put(s.db, id, r), s.outputs, s.results, tasks)
    ensures FilesOk(Put(s.db, id, r), s.inputs, s.results, s.outputs)
  {
    hide DbOk, RecordOk, Progress, DbProgress, FilesOk, PhaseOk, ResultOk;
    var after := Put(s.db, id, r);
    PutKeepsDb(s.db, id, r);
    forall k | k in tasks && !tasks[k].phase.Settled?
      ensures tasks[k].work.id in after.records && after.records[tasks[k].work.id].work.state.Running?
    {
      assert Owns(tasks, k, tasks[k].work.id);
    }
    hide TasksOk;
    TasksFrame(s.stop, s.db, s.outputs, s.results, tasks, after);
    FilesFrame(s.db, s.inputs, s.results, s.outputs, after);
  }

  lemma {:induction false} ClientFrame(client: Client, db: Db, inputs: Files, after: Db)
    requires ClientOk(client, db, inputs) && DbProgress(db, after)
    requires after.records.Keys == db.records.Keys
    ensures ClientOk(client, after, inputs)
  {
  }

  /** The same change seen from the scheduler, from ownership and from the client. */
  lemma {:induction false} LocalSurroundings(s: Sys, tasks: Tasks, id: WorkId, r: Record)
    requires id in s.db.records && DbProgress(s.db, Put(s.db, id, r))
    requires SchedOk(s.sched, s.db, tasks, s.inventory)
    requires OwnedOk(s.up, s.stop, s.db, s.tasks, s.sched)
    requires ClientOk(s.client, s.db, s.inputs)
    requires !s.db.records[id].work.state.Running? ==>
               r.work == s.db.records[id].work || r.work.state.Cancelled? || s.db.records[id].work.state.Succeeded?
    requires s.sched.Begun? && s.sched.work.id == id ==> r.work.state.Running?
    requires r.work.state.Running? ==> s.db.records[id].work.state.Running?
    requires forall k, other :: Owns(s.tasks, k, other) && (other != id || r.work.state.Running?) ==> Owns(tasks, k, other)
    ensures SchedOk(s.sched, Put(s.db, id, r), tasks, s.inventory)
    ensures OwnedOk(s.up, s.stop, Put(s.db, id, r), tasks, s.sched)
    ensures ClientOk(s.client, Put(s.db, id, r), s.inputs)
  {
    hide SchedOk, OwnedOk, ClientOk, DbProgress, Progress;
    var after := Put(s.db, id, r);
    SchedFrame(s.sched, s.db, tasks, s.inventory, after);
    OwnedFrame(s.up, s.stop, s.db, s.tasks, s.sched, after, tasks, s.sched);
    ClientFrame(s.client, s.db, s.inputs, after);
  }

  /** A Work that is not running has no executor. */
  lemma {:induction false} OnlyRunningOwned(stop: bool, db: Db, outputs: Outputs, results: Files, tasks: Tasks, id: WorkId)
    requires TasksOk(stop, db, outputs, results, tasks)
    ensures id in db.records && !db.records[id].work.state.Running? ==> forall k :: !Owns(tasks, k, id)
  {
  }

  lemma {:induction false} InsertKeepsDb(db: Db, w: Work)
    requires DbOk(db) && w.id !in db.records && NewWork(w, w.request.createdAt)
    ensures DbOk(Submit(db, w)) && DbProgress(db, Submit(db, w))
  {
  }

  lemma {:induction false} InsertWorkKeeps(s: Sys)
    requires Inv(s)
    ensures Kept(s, DoInsertWork(s))
  {
    hide DbOk, RecordOk, Progress, DbProgress, Exclusive, HoldersOk, CountersOk, PhaseOk, SchedOk, OwnedOk, FilesOk;
    NoProgressIsProgress(s.db);
    if s.client.InputWritten? {
      var w := s.client.work;
      InsertKeepsDb(s.db, w);
      var after := Submit(s.db, w);
      assert forall k :: k in s.tasks && !s.tasks[k].phase.Settled? ==> s.tasks[k].work.id in s.db.records;
      hide TasksOk;
      OwnedFrame(s.up, s.stop, s.db, s.tasks, s.sched, after, s.tasks, s.sched);
      TasksFrame(s.stop, s.db, s.outputs, s.results, s.tasks, after);
      SchedFrame(s.sched, s.db, s.tasks, s.inventory, after);
      InsertKeepsFiles(s.db, s.inputs, s.results, s.outputs, w);
    }
  }

  lemma {:induction false} InsertKeepsFiles(db: Db, inputs: Files, results: Files, outputs: Outputs, w: Work)
    requires FilesOk(db, inputs, results, outputs)
    requires w.id in inputs && w.state.Queued?
    ensures FilesOk(Submit(db, w), inputs, results, outputs)
  {
  }

  lemma {:induction false} CancelKeepsTable(s: Sys, id: WorkId)
    requires DbOk(s.db) && id in s.db.records
    requires TasksOk(s.stop, s.db, s.outputs, s.results, s.tasks)
    requires FilesOk(s.db, s.inputs, s.results, s.outputs)
    ensures DbOk(Cancel(s.db, id)) && DbProgress(s.db, Cancel(s.db, id))
    ensures TasksOk(s.stop, Cancel(s.db, id), s.outputs, s.results, s.tasks)
    ensures FilesOk(Cancel(s.db, id), s.inputs, s.results, s.outputs)
  {
    hide RecordOk, Progress, DbProgress, TasksOk, FilesOk;
    var r := s.db.records[id];
    CancelKeeps(id, r);
    CancelFacts(r);
    OnlyRunningOwned(s.stop, s.db, s.outputs, s.results, s.tasks, id);
    hide DbOk, CancelRecord;
    LocalChange(s, s.tasks, id, CancelRecord(r));
  }

  lemma {:induction false} CancelWorkKeeps(s: Sys, id: WorkId)
    requires Inv(s)
    ensures Kept(s, DoCancelWork(s, id))
  {
    hide DbOk, DbProgress, TasksOk, Exclusive, OwnedOk, HoldersOk, CountersOk, FilesOk, ClientOk;
    NoProgressIsProgress(s.db);
    if s.up && s.client.Ready? && id in s.db.records {
      var r := s.db.records[id];
      CancelFacts(r);
      assert s.sched.Begun? && s.sched.work.id == id ==> r.work.state.Running?;
      CancelKeepsTable(s, id);
      hide SchedOk, CancelRecord;
      LocalSurroundings(s, s.tasks, id, CancelRecord(r));
    }
  }

  lemma {:induction false} CancelFacts(r: Record)
    ensures CancelRecord(r).work.state.Running? <==> r.work.state.Running?
    ensures CancelRecord(r).work.state.Succeeded? <==> r.work.state.Succeeded?
    ensures CancelRecord(r).work == r.work || CancelRecord(r).work.state.Cancelled? || r.work.state.Running?
  {
  }

  lemma {:induction false} AcknowledgeWorkKeeps(s: Sys, id: WorkId)
    requires Inv(s)
    ensures Kept(s, DoAcknowledge(s, id))
  {
    hide RecordOk, Progress, DbProgress, TasksOk, Exclusive, OwnedOk, HoldersOk, CountersOk, FilesOk, ClientOk;
    NoProgressIsProgress(s.db);
    if AcknowledgeSucceeds(s, id) {
      var r := s.db.records[id];
      AcknowledgeKeeps(id, r);
      OnlyRunningOwned(s.stop, s.db, s.outputs, s.results, s.tasks, id);
      assert s.sched.Begun? ==> s.sched.work.id != id;
      hide DbOk, SchedOk;
      var after := r.(work := r.work.(acknowledged := true));
      LocalChange(s, s.tasks, id, after);
      LocalSurroundings(s, s.tasks, id, after);
      AcknowledgedClient(s.db, s.inputs, id, after);
    }
  }

  lemma {:induction false} AcknowledgedClient(db: Db, inputs: Files, id: WorkId, r: Record)
    requires r.work.acknowledged
    ensures ClientOk(Acknowledged(id), Put(db, id, r), inputs)
  {
  }

  lemma {:induction false} AcknowledgedSucceeded(id: WorkId, r: Record)
    requires RecordOk(id, r) && r.work.acknowledged
    ensures r.work.state.Succeeded?
  {
  }

  /** Only an acknowledged Work loses its files, and no executor carries an acknowledged Work. */
  lemma {:induction false} AcknowledgedHasNoExecutor(s: Sys, id: WorkId)
    requires Inv(s) && id in s.db.records && s.db.records[id].work.acknowledged
    ensures forall k :: k in s.tasks && !s.tasks[k].phase.Settled? ==> s.tasks[k].work.id != id
  {
    hide RecordOk, Exclusive, SchedOk, OwnedOk, HoldersOk, CountersOk, FilesOk, ClientOk, PhaseOk;
    AcknowledgedSucceeded(id, s.db.records[id]);
  }

  lemma {:induction false} RemoveInputKeeps(s: Sys)
    requires Inv(s)
    ensures Kept(s, DoRemoveInput(s))
  {
    NoProgressIsProgress(s.db);
    hide DbOk, TasksOk, Exclusive, SchedOk, OwnedOk, HoldersOk, CountersOk, DbProgress;
  }

  /** No executor and no unclaimed Work needs the result of an acknowledged Work. */
  lemma {:induction false} ResultNotNeeded(s: Sys, id: WorkId)
    requires Inv(s) && id in s.db.records && s.db.records[id].work.acknowledged
    ensures TasksOk(s.stop, s.db, s.outputs, s.results - {id}, s.tasks)
    ensures FilesOk(s.db, s.inputs, s.results - {id}, s.outputs)
  {
    AcknowledgedHasNoExecutor(s, id);
    hide DbOk, Exclusive, SchedOk, OwnedOk, HoldersOk, CountersOk, ClientOk, Carries;
  }

  lemma {:induction false} RemoveResultKeeps(s: Sys)
    requires Inv(s)
    ensures Kept(s, DoRemoveResult(s))
  {
    NoProgressIsProgress(s.db);
    if s.client.InputRemoved? {
      ResultNotNeeded(s, s.client.id);
    }
    hide DbOk, TasksOk, Exclusive, SchedOk, OwnedOk, HoldersOk, CountersOk, FilesOk, DbProgress;
  }

  // The scheduler

  lemma {:induction false} WakeKeeps(s: Sys)
    requires Inv(s)
    ensures Kept(s, DoWake(s))
  {
    hide DbOk, TasksOk, Exclusive, CountersOk, FilesOk, ClientOk, DbProgress, OwnedOk;
    NoProgressIsProgress(s.db);
    if s.up && !s.stop && s.sched.Idle? {
      Rescheduled(s, DoWake(s));
    }
  }

  lemma {:induction false} SweepKeeps(s: Sys)
    requires Inv(s)
    ensures Kept(s, DoSweep(s))
  {
    hide RecordOk, Progress, DbProgress, TasksOk, Exclusive, OwnedOk, HoldersOk, CountersOk, FilesOk;
    NoProgressIsProgress(s.db);
    if s.sched.Scanning? {
      var after := Expire(s.db, s.sched.now);
      forall id | id in s.db.records
        ensures RecordOk(id, after.records[id]) && Progress(s.db.records[id], after.records[id])
      {
        ExpireKeeps(id, s.db.records[id], s.sched.now);
      }
      hide DbOk;
      MapKeepsDb(s.db, after);
      SweepKeepsParts(s, after);
      assert HoldersOk(s.ledger, s.tasks, Swept(s.sched.now), s.nextLease) by {
        HoldersFrame(s.ledger, s.tasks, s.sched, s.nextLease, Swept(s.sched.now));
      }
    }
  }

  lemma {:induction false} HoldersFrame(ledger: map<nat, Requirement>, tasks: Tasks, sched: Scheduler, nextLease: nat, after: Scheduler)
    requires HoldersOk(ledger, tasks, sched, nextLease)
    requires forall k: nat :: HeldByScheduler(sched, k) <==> HeldByScheduler(after, k)
    ensures HoldersOk(ledger, tasks, after, nextLease)
  {
  }

  lemma {:induction false} SweepKeepsParts(s: Sys, after: Db)
    requires TasksOk(s.stop, s.db, s.outputs, s.results, s.tasks)
    requires FilesOk(s.db, s.inputs, s.results, s.outputs)
    requires OwnedOk(s.up, s.stop, s.db, s.tasks, s.sched) && s.sched.Scanning?
    requires DbProgress(s.db, after) && after == Expire(s.db, s.sched.now)
    ensures TasksOk(s.stop, after, s.outputs, s.results, s.tasks)
    ensures FilesOk(after, s.inputs, s.results, s.outputs)
    ensures OwnedOk(s.up, s.stop, after, s.tasks, Swept(s.sched.now))
  {
    hide Progress, DbProgress, OwnedOk, FilesOk, PhaseOk;
    assert forall k :: k in s.tasks && !s.tasks[k].phase.Settled? ==> Carries(s.db, s.tasks[k]);
    hide TasksOk;
    TasksFrame(s.stop, s.db, s.outputs, s.results, s.tasks, after);
    FilesFrame(s.db, s.inputs, s.results, s.outputs, after);
    OwnedFrame(s.up, s.stop, s.db, s.tasks, s.sched, after, s.tasks, Swept(s.sched.now));
  }

  lemma {:induction false} PickKeeps(s: Sys)
    requires Inv(s)
    ensures Kept(s, DoPick(s))
  {
    hide RecordOk, DbOk, TasksOk, Exclusive, OwnedOk, HoldersOk, CountersOk, FilesOk, ClientOk, DbProgress, SchedOk, DoPick;
    NoProgressIsProgress(s.db);
    if s.sched.Swept? {
      PickedFacts(s);
      var q := DoPick(s).sched;
      PickedSched(s, q);
      HoldersFrame(s.ledger, s.tasks, s.sched, s.nextLease, q);
      Rescheduled(s, DoPick(s));
    } else {
      PicksNothing(s);
    }
  }

  lemma {:induction false} PicksNothing(s: Sys)
    requires !s.sched.Swept?
    ensures DoPick(s) == s
  {
  }

  lemma {:induction false} PickedSched(s: Sys, q: Scheduler)
    requires q.Idle? || (q.Picked? && SnapshotOk(s.db, q.work) && Eligible(q.work, q.now))
    ensures SchedOk(q, s.db, s.tasks, s.inventory)
  {
  }

  /** The picked row is current and eligible. */
  lemma {:induction false} PickedFacts(s: Sys)
    requires DbOk(s.db) && s.sched.Swept?
    ensures var q := DoPick(s).sched;
            && DoPick(s) == s.(sched := q)
            && (q.Idle? || (q.Picked? && SnapshotOk(s.db, q.work) && Eligible(q.work, q.now)))
  {
    NextEligibleMeaning(s.db, s.sched.now);
    NextEligibleKeys(s);
    hide DbOk, NextEligible, Eligible, RowidsDistinct;
    match NextEligible(s.db, s.sched.now)
    case None =>
    case Some(id) =>
      assert DoPick(s) == s.(sched := Picked(s.sched.now, s.db.records[id].work));
  }

  /** The picked row is stored under its own id. */
  lemma {:induction false} NextEligibleKeys(s: Sys)
    requires DbOk(s.db)
    ensures forall id :: id in s.db.records ==> s.db.records[id].work.id == id
  {
    forall id | id in s.db.records
      ensures s.db.records[id].work.id == id
    {
      assert RecordOk(id, s.db.records[id]);
    }
  }

  /** Failing a queued Work, while the scheduler drops its snapshot of it. */
  lemma {:induction false} RejectKeepsParts(s: Sys, id: WorkId, text: Diagnosis, sched: Scheduler)
    requires Inv(s) && s.up && id in s.db.records && !s.sched.Begun?
    requires sched.Idle? || sched.Returning?
    requires forall k: nat :: HeldByScheduler(s.sched, k) <==> HeldByScheduler(sched, k)
    ensures Kept(s, s.(db := Reject(s.db, id, text), sched := sched))
  {
    hide DbOk, DbProgress, TasksOk, Exclusive, OwnedOk, HoldersOk, CountersOk, FilesOk, ClientOk;
    RejectFacts(s.db.records[id], text);
    HoldersFrame(s.ledger, s.tasks, s.sched, s.nextLease, sched);
    RejectKeepsTable(s, id, text);
    hide RejectRecord;
    var after := Reject(s.db, id, text);
    ClientFrame(s.client, s.db, s.inputs, after);
    OwnedFrame(s.up, s.stop, s.db, s.tasks, s.sched, after, s.tasks, sched);
  }

  lemma {:induction false} RejectKeepsTable(s: Sys, id: WorkId, text: Diagnosis)
    requires DbOk(s.db) && id in s.db.records
    requires TasksOk(s.stop, s.db, s.outputs, s.results, s.tasks)
    requires FilesOk(s.db, s.inputs, s.results, s.outputs)
    ensures DbOk(Reject(s.db, id, text)) && DbProgress(s.db, Reject(s.db, id, text))
    ensures TasksOk(s.stop, Reject(s.db, id, text), s.outputs, s.results, s.tasks)
    ensures FilesOk(Reject(s.db, id, text), s.inputs, s.results, s.outputs)
  {
    hide RecordOk, Progress, DbProgress, TasksOk, FilesOk;
    var r := s.db.records[id];
    RejectKeeps(id, r, text);
    RejectFacts(r, text);
    OnlyRunningOwned(s.stop, s.db, s.outputs, s.results, s.tasks, id);
    hide DbOk, RejectRecord;
    LocalChange(s, s.tasks, id, RejectRecord(r, text));
  }

  lemma {:induction false} RejectFacts(r: Record, text: Diagnosis)
    ensures RejectRecord(r, text) == r || RejectRecord(r, text).work.state.Failed?
    ensures !r.work.state.Queued? ==> RejectRecord(r, text) == r
    ensures r.work.state.Queued? ==> RejectRecord(r, text).work.state.Failed?
  {
  }

  lemma {:induction false} AdmitKeeps(s: Sys)
    requires Inv(s)
    ensures Kept(s, DoAdmit(s))
  {
    NoProgressIsProgress(s.db);
    if s.sched.Picked? {
      var w := s.sched.work;
      if DeadlineReached(w.request, s.sched.now) {
        RejectKeepsParts(s, w.id, DeadlineBeforeDispatch, Idle);
      } else {
        match Select(w.request, s.inventory)
        case NoMatch(stage) =>
          RejectKeepsParts(s, w.id, Unmatched(stage), Idle);
        case Chosen(engine, model) =>
          if !CanEverReserve(s.capacity, engine.resources) {
            RejectKeepsParts(s, w.id, InsufficientCapacity, Idle);
          } else {
            ReserveKeeps(s, engine, model);
          }
      }
    }
  }

  lemma {:induction false} ReserveKeeps(s: Sys, engine: Engine, model: Bytes)
    requires Inv(s) && s.sched.Picked?
    requires !DeadlineReached(s.sched.work.request, s.sched.now)
    requires Select(s.sched.work.request, s.inventory) == Chosen(engine, model)
    requires CanEverReserve(s.capacity, engine.resources)
    ensures Kept(s, DoAdmit(s))
  {
    hide Inv, HoldersOk, CountersOk, SchedOk, AfterReserve, Decide, Select, CanEverReserve, DeadlineReached;
    var admitted := Admitted(s.sched.now, s.sched.work, engine, model, s.nextLease);
    AdmittedSched(s, engine, model);
    ReserveKeepsLeases(s, engine.resources, admitted);
    AdmitsTo(s, engine, model);
    hide DoAdmit;
    Rescheduled(s, DoAdmit(s));
  }

  lemma {:induction false} AdmittedSched(s: Sys, engine: Engine, model: Bytes)
    requires Inv(s) && s.sched.Picked?
    requires Select(s.sched.work.request, s.inventory) == Chosen(engine, model)
    ensures s.up && SchedOk(Idle, s.db, s.tasks, s.inventory)
    ensures SchedOk(Admitted(s.sched.now, s.sched.work, engine, model, s.nextLease), s.db, s.tasks, s.inventory)
  {
    hide DbOk, TasksOk, Exclusive, HoldersOk, CountersOk, FilesOk, ClientOk, OwnedOk, Select, Eligible, SnapshotOk;
  }

  /** A step that changes only the scheduler, which is launching nothing, and the leases. */
  lemma {:induction false} Rescheduled(s: Sys, t: Sys)
    requires Inv(s) && s.up && !s.sched.Begun?
    requires t == s.(usage := t.usage, ledger := t.ledger, nextLease := t.nextLease, sched := t.sched)
    requires SchedOk(t.sched, s.db, s.tasks, s.inventory)
    requires HoldersOk(t.ledger, s.tasks, t.sched, t.nextLease)
    requires CountersOk(s.up, s.inventory, s.capacity, t.usage, t.ledger)
    ensures Kept(s, t)
  {
    NoProgressIsProgress(s.db);
    OwnedMoves(s, t.sched);
    hide DbOk, TasksOk, Exclusive, SchedOk, HoldersOk, CountersOk, FilesOk, ClientOk, DbProgress, OwnedOk;
  }

  /** The scheduler may move freely while it is not launching an attempt. */
  lemma {:induction false} OwnedMoves(s: Sys, sched: Scheduler)
    requires OwnedOk(s.up, s.stop, s.db, s.tasks, s.sched) && !s.sched.Begun?
    ensures OwnedOk(s.up, s.stop, s.db, s.tasks, sched)
  {
    OwnedFrame(s.up, s.stop, s.db, s.tasks, s.sched, s.db, s.tasks, sched);
  }

  lemma {:induction false} AdmitsTo(s: Sys, engine: Engine, model: Bytes)
    requires s.sched.Picked?
    requires !DeadlineReached(s.sched.work.request, s.sched.now)
    requires Select(s.sched.work.request, s.inventory) == Chosen(engine, model)
    requires CanEverReserve(s.capacity, engine.resources)
    ensures var usage := AfterReserve(s.capacity, s.usage, engine.resources);
            DoAdmit(s) ==
              if Decide(s.capacity, s.usage, engine.resources).Granted? then
                s.(usage := usage, ledger := s.ledger[s.nextLease := engine.resources], nextLease := s.nextLease + 1,
                   sched := Admitted(s.sched.now, s.sched.work, engine, model, s.nextLease))
              else s.(usage := usage, sched := Idle)
  {
    hide Select, AfterReserve, Decide, CanEverReserve, DeadlineReached;
  }

  /** The counters and the holders after a reservation, granted or refused. */
  lemma {:induction false} ReserveKeepsLeases(s: Sys, r: Requirement, admitted: Scheduler)
    requires Inv(s) && s.sched.Picked?
    requires admitted.Admitted? && admitted.lease == s.nextLease
    ensures var usage := AfterReserve(s.capacity, s.usage, r);
            if Decide(s.capacity, s.usage, r).Granted? then
              && HoldersOk(s.ledger[s.nextLease := r], s.tasks, admitted, s.nextLease + 1)
              && CountersOk(s.up, s.inventory, s.capacity, usage, s.ledger[s.nextLease := r])
            else
              && HoldersOk(s.ledger, s.tasks, Idle, s.nextLease)
              && CountersOk(s.up, s.inventory, s.capacity, usage, s.ledger)
  {
    hide Balanced, ValidConfiguration, HoldersOk, AfterReserve, Decide;
    hide DbOk, TasksOk, Exclusive, FilesOk, ClientOk, OwnedOk, SchedOk;
    if Decide(s.capacity, s.usage, r).Granted? {
      GrantHolders(s.ledger, s.tasks, s.sched, s.nextLease, r, admitted);
      GrantKeepsBalance(s.capacity, s.usage, s.ledger, s.nextLease, r);
    } else {
      HoldersFrame(s.ledger, s.tasks, s.sched, s.nextLease, Idle);
      RefusalKeepsBalance(s.capacity, s.usage, s.ledger, r);
    }
  }

  lemma {:induction false} GrantHolders(ledger: map<nat, Requirement>, tasks: Tasks, sched: Scheduler, nextLease: nat, r: Requirement,
                     after: Scheduler)
    requires HoldersOk(ledger, tasks, sched, nextLease)
    requires forall k: nat :: !HeldByScheduler(sched, k)
    requires forall k: nat :: HeldByScheduler(after, k) <==> k == nextLease
    ensures nextLease !in ledger
    ensures HoldersOk(ledger[nextLease := r], tasks, after, nextLease + 1)
  {
  }

  lemma {:induction false} BeginKeepsAll(s: Sys)
    requires Inv(s)
    ensures Kept(s, DoBegin(s))
    ensures s.sched.Admitted? ==> !BeginResult(s.db, s.sched.work.id).KeyConflict?
  {
    NoProgressIsProgress(s.db);
    if s.sched.Admitted? {
      var w := s.sched.work;
      AdmittedIsNew(s, w.id);
      if DeadlineReached(w.request, s.clock) {
        RejectKeepsParts(s, w.id, DeadlineBeforeDispatch, Returning(s.sched.lease));
      } else if BeginResult(s.db, w.id).Lost? {
        hide DbOk, TasksOk, Exclusive, CountersOk, FilesOk, ClientOk, DbProgress, OwnedOk, HoldersOk;
        OwnedFrame(s.up, s.stop, s.db, s.tasks, s.sched, s.db, s.tasks, Returning(s.sched.lease));
        HoldersFrame(s.ledger, s.tasks, s.sched, s.nextLease, Returning(s.sched.lease));
      } else {
        BeginStarts(s);
      }
    }
  }

  lemma {:induction false} AdmittedIsNew(s: Sys, id: WorkId)
    requires DbOk(s.db) && id in s.db.records
    ensures !BeginResult(s.db, id).KeyConflict?
  {
    assert RecordOk(id, s.db.records[id]);
  }

  lemma {:induction false} BeginStarts(s: Sys)
    requires Inv(s) && s.sched.Admitted?
    requires !DeadlineReached(s.sched.work.request, s.clock)
    requires BeginResult(s.db, s.sched.work.id).Began?
    ensures Kept(s, DoBegin(s))
  {
    hide RecordOk, Progress, DbProgress, TasksOk, Exclusive, OwnedOk, HoldersOk, CountersOk, FilesOk;
    var id := s.sched.work.id;
    var r := s.db.records[id];
    var t := DoBegin(s);
    BeginKeeps(id, r, s.sched.engine.id, s.sched.model, s.clock);
    OnlyRunningOwned(s.stop, s.db, s.outputs, s.results, s.tasks, id);
    hide DbOk;
    LocalChange(s, s.tasks, id, BeginRecord(r, s.sched.engine.id, s.sched.model, s.clock));
    HoldersFrame(s.ledger, s.tasks, s.sched, s.nextLease, t.sched);
    BeginOwned(s, id, t.sched, BeginRecord(r, s.sched.engine.id, s.sched.model, s.clock));
  }

  lemma {:induction false} BeginOwned(s: Sys, id: WorkId, sched: Scheduler, r: Record)
    requires OwnedOk(s.up, s.stop, s.db, s.tasks, s.sched) && !s.sched.Begun?
    requires id in s.db.records && sched.Begun? && sched.work.id == id
    ensures OwnedOk(s.up, s.stop, Put(s.db, id, r), s.tasks, sched)
  {
    var after := Put(s.db, id, r);
    if s.up && !s.stop {
      forall other | other in after.records && after.records[other].work.state.Running?
        ensures HasOwner(s.tasks, sched, other)
      {
        if other != id {
          assert HasOwner(s.tasks, s.sched, other);
        }
      }
    }
  }

  lemma {:induction false} LaunchKeeps(s: Sys, ok: bool, why: Bytes)
    requires Inv(s)
    ensures Kept(s, DoLaunch(s, ok, why))
  {
    NoProgressIsProgress(s.db);
    if s.sched.Begun? {
      if ok {
        LaunchSpawns(s, why);
      } else {
        LaunchFails(s, why);
      }
    }
  }

  /** The lease moves from the scheduler to the new executor, which becomes the owner of the Work. */
  lemma {:induction false} LaunchSpawns(s: Sys, why: Bytes)
    requires Inv(s) && s.sched.Begun?
    ensures Kept(s, DoLaunch(s, true, why))
  {
    hide DbOk, DbProgress, CountersOk, FilesOk, ClientOk;
    NoProgressIsProgress(s.db);
    var t := DoLaunch(s, true, why);
    var k, task := s.sched.lease, Task(s.sched.work, s.sched.attempt, s.sched.startedAt, Launched);
    assert HeldByScheduler(s.sched, k);
    assert k !in s.tasks;
    assert t.tasks == s.tasks[k := task];
    assert HoldersOk(t.ledger, t.tasks, t.sched, t.nextLease);
    hide HoldersOk;
    SpawnKeepsTasks(s.stop, s.db, s.outputs, s.results, s.tasks, k, task);
    forall j, id | Owns(s.tasks, j, id)
      ensures Owns(t.tasks, j, id)
    {
    }
    assert Owns(t.tasks, k, s.sched.work.id);
    hide TasksOk, Exclusive, OwnedOk;
    OwnedFrame(s.up, s.stop, s.db, s.tasks, s.sched, s.db, t.tasks, Idle);
  }

  lemma {:induction false} SpawnKeepsTasks(stop: bool, db: Db, outputs: Outputs, results: Files, tasks: Tasks, k: nat, task: Task)
    requires TasksOk(stop, db, outputs, results, tasks) && Exclusive(tasks) && k !in tasks
    requires Carries(db, task) && task.phase.Launched?
    requires forall j :: !Owns(tasks, j, task.work.id)
    ensures TasksOk(stop, db, outputs, results, tasks[k := task]) && Exclusive(tasks[k := task])
  {
    var after := tasks[k := task];
    forall i, j | i in after && Owns(after, j, after[i].work.id) && !after[i].phase.Settled?
      ensures i == j
    {
      assert !Owns(tasks, i, task.work.id) && !Owns(tasks, j, task.work.id);
      if i != k && j != k {
        assert Owns(tasks, j, tasks[i].work.id);
      }
    }
  }

  lemma {:induction false} LaunchFails(s: Sys, why: Bytes)
    requires Inv(s) && s.sched.Begun?
    ensures Kept(s, DoLaunch(s, false, why))
  {
    hide RecordOk, Progress, DbProgress, TasksOk, Exclusive, OwnedOk, HoldersOk, CountersOk, FilesOk;
    var id, n := s.sched.work.id, s.sched.attempt;
    var r := s.db.records[id];
    var t := DoLaunch(s, false, why);
    FailKeeps(id, r, Faulted, LaunchFailure(why), s.clock);
    hide DbOk;
    LocalChange(s, s.tasks, id, FailRecord(r, n, Faulted, LaunchFailure(why), s.clock));
    HoldersFrame(s.ledger, s.tasks, s.sched, s.nextLease, t.sched);
    OwnedFrame(s.up, s.stop, s.db, s.tasks, s.sched, t.db, s.tasks, t.sched);
  }

  lemma {:induction false} ReturnKeeps(s: Sys)
    requires Inv(s)
    ensures Kept(s, DoReturn(s))
  {
    hide DbOk, DbProgress, FilesOk, ClientOk, TasksOk, Exclusive, OwnedOk;
    NoProgressIsProgress(s.db);
    if s.sched.Returning? {
      assert HeldByScheduler(s.sched, s.sched.lease);
      OwnedFrame(s.up, s.stop, s.db, s.tasks, s.sched, s.db, s.tasks, Idle);
      ReleaseKeepsBalance(s.capacity, s.usage, s.ledger, s.sched.lease);
    }
  }

  // Executor tasks

  /** A live executor that moves on and stays live keeps the structure of ownership. */
  lemma {:induction false} PhaseFrame(s: Sys, k: nat, phase: Phase)
    requires Inv(s) && k in s.tasks && !s.tasks[k].phase.Settled? && !phase.Settled?
    ensures Exclusive(MoveTask(s, k, phase).tasks)
    ensures SchedOk(s.sched, s.db, MoveTask(s, k, phase).tasks, s.inventory)
    ensures OwnedOk(s.up, s.stop, s.db, MoveTask(s, k, phase).tasks, s.sched)
    ensures HoldersOk(s.ledger, MoveTask(s, k, phase).tasks, s.sched, s.nextLease)
  {
    hide DbOk, TasksOk, CountersOk, FilesOk, ClientOk, OwnedOk;
    var after := MoveTask(s, k, phase).tasks;
    forall j, id
      ensures Owns(s.tasks, j, id) <==> Owns(after, j, id)
    {
    }
    OwnedFrame(s.up, s.stop, s.db, s.tasks, s.sched, s.db, after, s.sched);
  }

  /** An executor that lets go of its Work. */
  lemma {:induction false} SettleFrame(s: Sys, k: nat)
    requires Inv(s) && k in s.tasks && !s.tasks[k].phase.Settled?
    ensures Exclusive(MoveTask(s, k, Settled).tasks)
    ensures SchedOk(s.sched, s.db, MoveTask(s, k, Settled).tasks, s.inventory)
    ensures HoldersOk(s.ledger, MoveTask(s, k, Settled).tasks, s.sched, s.nextLease)
    ensures TasksOk(s.stop, s.db, s.outputs, s.results, MoveTask(s, k, Settled).tasks)
    ensures forall j :: !Owns(MoveTask(s, k, Settled).tasks, j, s.tasks[k].work.id)
    ensures forall j, id :: Owns(s.tasks, j, id) && id != s.tasks[k].work.id ==> Owns(MoveTask(s, k, Settled).tasks, j, id)
  {
    hide DbOk, CountersOk, FilesOk, ClientOk, OwnedOk, PhaseOk;
    var after := MoveTask(s, k, Settled).tasks;
    forall j, id | Owns(after, j, id)
      ensures Owns(s.tasks, j, id) && j != k && id != s.tasks[k].work.id
    {
      assert Owns(s.tasks, j, s.tasks[j].work.id);
    }
  }

  /** New output and result entries are for the executor's own attempt only, so the others are not disturbed. */
  lemma {:induction false} PhaseKeepsTasks(s: Sys, k: nat, phase: Phase, outputs: Outputs, results: Files)
    requires Inv(s) && k in s.tasks && !s.tasks[k].phase.Settled?
    requires PhaseOk(s.stop, s.db, outputs, results, s.tasks[k].(phase := phase))
    requires forall key :: key != (s.tasks[k].work.id, s.tasks[k].attempt) && key in s.outputs ==>
                             key in outputs && outputs[key] == s.outputs[key]
    requires forall id :: id != s.tasks[k].work.id && id in s.results ==> id in results && results[id] == s.results[id]
    ensures TasksOk(s.stop, s.db, outputs, results, MoveTask(s, k, phase).tasks)
    ensures FilesOk(s.db, s.inputs, results, outputs)
  {
    hide DbOk, CountersOk, ClientOk, OwnedOk, SchedOk, HoldersOk, FilesOk;
    var id := s.tasks[k].work.id;
    assert Carries(s.db, s.tasks[k]);
    hide PhaseOk;
    forall j | j in s.tasks && !s.tasks[j].phase.Settled? && j != k
      ensures PhaseOk(s.stop, s.db, outputs, results, s.tasks[j])
    {
      assert Owns(s.tasks, k, id);
      OtherPhase(s, k, j, outputs, results);
    }
    OtherFiles(s.db, s.inputs, s.results, s.outputs, id, s.tasks[k].attempt, results, outputs);
  }

  lemma {:induction false} OtherPhase(s: Sys, k: nat, j: nat, outputs: Outputs, results: Files)
    requires k in s.tasks && j in s.tasks && s.tasks[j].work.id != s.tasks[k].work.id
    requires PhaseOk(s.stop, s.db, s.outputs, s.results, s.tasks[j])
    requires forall key :: key != (s.tasks[k].work.id, s.tasks[k].attempt) && key in s.outputs ==>
                             key in outputs && outputs[key] == s.outputs[key]
    requires forall id :: id != s.tasks[k].work.id && id in s.results ==> id in results && results[id] == s.results[id]
    ensures PhaseOk(s.stop, s.db, outputs, results, s.tasks[j])
  {
  }

  lemma {:induction false} OtherFiles(db: Db, inputs: Files, results: Files, outputs: Outputs, id: WorkId, n: int,
                   results': Files, outputs': Outputs)
    requires FilesOk(db, inputs, results, outputs)
    requires id in db.records && db.records[id].work.state.Running?
    requires forall key :: key != (id, n) && key in outputs ==> key in outputs' && outputs'[key] == outputs[key]
    requires forall other :: other != id && other in results ==> other in results' && results'[other] == results[other]
    ensures FilesOk(db, inputs, results', outputs')
  {
    forall other | other in db.records
      ensures ResultOk(results', outputs', other, db.records[other].work)
    {
      var key := (other, db.records[other].work.attemptCount);
      assert other != id ==> key != (id, n);
    }
  }

  lemma {:induction false} StartKeeps(s: Sys, k: nat, readable: bool, why: Bytes)
    requires Inv(s)
    ensures Kept(s, DoStart(s, k, readable, why))
  {
    NoProgressIsProgress(s.db);
    if k in s.tasks && s.tasks[k].phase.Launched? {
      if s.stop {
        SettleFrame(s, k);
        hide DbOk, TasksOk, Exclusive, SchedOk, HoldersOk, CountersOk, FilesOk, ClientOk, DbProgress;
      } else {
        var phase := if readable && s.tasks[k].work.id in s.inputs then Executing else Raised(why);
        PhaseFrame(s, k, phase);
        PhaseKeepsTasks(s, k, phase, s.outputs, s.results);
        hide DbOk, TasksOk, Exclusive, SchedOk, OwnedOk, HoldersOk, CountersOk, FilesOk, ClientOk, DbProgress;
      }
    }
  }

  lemma {:induction false} DecideKeeps(s: Sys, k: nat, outcome: Outcome)
    requires Inv(s)
    ensures Kept(s, DoDecide(s, k, outcome))
  {
    NoProgressIsProgress(s.db);
    if k in s.tasks && s.tasks[k].phase.Executing? && Observable(s, s.tasks[k], outcome) {
      var t := DoDecide(s, k, outcome);
      PhaseFrame(s, k, Decided(outcome));
      PhaseKeepsTasks(s, k, Decided(outcome), t.outputs, s.results);
      hide DbOk, TasksOk, Exclusive, SchedOk, OwnedOk, HoldersOk, CountersOk, FilesOk, ClientOk, DbProgress;
    }
  }

  lemma {:induction false} ThrowKeeps(s: Sys, k: nat, why: Bytes)
    requires Inv(s)
    ensures Kept(s, DoThrow(s, k, why))
  {
    NoProgressIsProgress(s.db);
    if k in s.tasks && (s.tasks[k].phase.Executing? || s.tasks[k].phase.Committed?) {
      PhaseFrame(s, k, Raised(why));
      PhaseKeepsTasks(s, k, Raised(why), s.outputs, s.results);
      hide DbOk, TasksOk, Exclusive, SchedOk, OwnedOk, HoldersOk, CountersOk, FilesOk, ClientOk, DbProgress;
    }
  }

  lemma {:induction false} WriteKeeps(s: Sys, k: nat)
    requires Inv(s)
    ensures Kept(s, DoWrite(s, k))
  {
    NoProgressIsProgress(s.db);
    if k in s.tasks && s.tasks[k].phase.Committed? {
      var t := DoWrite(s, k);
      var phase := Written(s.tasks[k].phase.payload);
      assert PhaseOk(s.stop, s.db, s.outputs, s.results, s.tasks[k]);
      PhaseFrame(s, k, phase);
      PhaseKeepsTasks(s, k, phase, s.outputs, t.results);
      hide DbOk, TasksOk, Exclusive, SchedOk, OwnedOk, HoldersOk, CountersOk, FilesOk, ClientOk, DbProgress;
    }
  }

  /** The executor ends with the store update that its phase asks for. */
  function Left(s: Sys, k: nat, db: Db): Sys
    requires k in s.tasks
  {
    MoveTask(s, k, Settled).(db := db)
  }

  lemma {:induction false} LeavingFacts(s: Sys, k: nat)
    requires Inv(s) && k in s.tasks && !s.tasks[k].phase.Settled?
    ensures var id := s.tasks[k].work.id;
            && id in s.db.records && s.db.records[id].work.state.Running?
            && Owns(s.tasks, k, id) && (s.sched.Begun? ==> s.sched.work.id != id)
  {
    hide DbOk, Exclusive, OwnedOk, HoldersOk, CountersOk, FilesOk, ClientOk, PhaseOk;
    assert Owns(s.tasks, k, s.tasks[k].work.id);
  }

  /** An executor that ends its attempt and lets go of its Work in the same step. */
  lemma {:induction false} SettleWith(s: Sys, k: nat, r: Record)
    requires Inv(s) && k in s.tasks && !s.tasks[k].phase.Settled? && s.tasks[k].work.id in s.db.records
    requires RecordOk(s.tasks[k].work.id, r) && Progress(s.db.records[s.tasks[k].work.id], r)
    requires !r.work.state.Running?
    requires r.work.state.Succeeded? ==> ResultOk(s.results, s.outputs, s.tasks[k].work.id, r.work)
    ensures Kept(s, Left(s, k, Put(s.db, s.tasks[k].work.id, r)))
  {
    var id := s.tasks[k].work.id;
    LeavingFacts(s, k);
    hide RecordOk, Progress, DbProgress, DbOk, TasksOk, Exclusive, SchedOk, OwnedOk, HoldersOk, CountersOk, FilesOk, ClientOk,
         ResultOk;
    SettleFrame(s, k);
    var tasks := MoveTask(s, k, Settled).tasks;
    LocalChange(s, tasks, id, r);
    LocalSurroundings(s, tasks, id, r);
  }

  /** An executor that returns because the Kernel is stopping leaves the attempt for restart recovery. */
  lemma {:induction false} SettleStopped(s: Sys, k: nat)
    requires Inv(s) && k in s.tasks && !s.tasks[k].phase.Settled? && s.stop
    ensures Kept(s, Left(s, k, s.db))
  {
    SettleFrame(s, k);
    NoProgressIsProgress(s.db);
    hide DbOk, TasksOk, Exclusive, SchedOk, HoldersOk, CountersOk, FilesOk, ClientOk, DbProgress;
  }

  /** A commit leaves the Work with the result that its executor has just written. */
  lemma {:induction false} WrittenResult(s: Sys, k: nat)
    requires Inv(s) && k in s.tasks && s.tasks[k].phase.Written?
    ensures s.tasks[k].work.id in s.db.records
    ensures ResultOk(s.results, s.outputs, s.tasks[k].work.id,
                     SucceedRecord(s.db.records[s.tasks[k].work.id], s.tasks[k].attempt, s.clock).work)
  {
    hide DbOk, Exclusive, OwnedOk, SchedOk, HoldersOk, CountersOk, FilesOk, ClientOk;
    assert Carries(s.db, s.tasks[k]) && PhaseOk(s.stop, s.db, s.outputs, s.results, s.tasks[k]);
  }

  lemma {:induction false} SettleFailed(s: Sys, k: nat, state: AttemptState, text: Diagnosis)
    requires Inv(s) && k in s.tasks && !s.tasks[k].phase.Settled?
    requires state.Faulted? || state.TimedOut?
    ensures Kept(s, Left(s, k, FinishFailure(s.db, s.tasks[k].work.id, s.tasks[k].attempt, state, text, s.clock)))
  {
    var t := s.tasks[k];
    hide RecordOk, Progress, DbProgress, Exclusive, SchedOk, OwnedOk, HoldersOk, CountersOk, FilesOk, ClientOk, PhaseOk;
    assert Carries(s.db, t);
    var r := s.db.records[t.work.id];
    FailKeeps(t.work.id, r, state, text, s.clock);
    hide DbOk, TasksOk, FailRecord;
    FailedIsNotSucceeded(r, t.attempt, state, text, s.clock);
    SettleWith(s, k, FailRecord(r, t.attempt, state, text, s.clock));
  }

  lemma {:induction false} FailedIsNotSucceeded(r: Record, n: int, state: AttemptState, text: Diagnosis, now: int)
    requires r.work.state.Running?
    ensures !FailRecord(r, n, state, text, now).work.state.Succeeded?
  {
  }

  lemma {:induction false} SettleCancelled(s: Sys, k: nat)
    requires Inv(s) && k in s.tasks && (s.tasks[k].phase == Decided(CancelSeen) || s.tasks[k].phase.Withdrawing?)
    ensures Kept(s, Left(s, k, FinishCancelled(s.db, s.tasks[k].work.id, s.tasks[k].attempt, s.clock)))
  {
    var t := s.tasks[k];
    hide RecordOk, Progress, DbProgress, Exclusive, SchedOk, OwnedOk, HoldersOk, CountersOk, FilesOk, ClientOk;
    assert Carries(s.db, t) && PhaseOk(s.stop, s.db, s.outputs, s.results, t);
    var r := s.db.records[t.work.id];
    CancelRunningKeeps(t.work.id, r, s.clock);
    hide DbOk, TasksOk, PhaseOk;
    SettleWith(s, k, CancelRunningRecord(r, t.attempt, s.clock));
  }

  lemma {:induction false} SettleWritten(s: Sys, k: nat)
    requires Inv(s) && k in s.tasks && s.tasks[k].phase.Written?
    ensures Kept(s, Left(s, k, FinishSuccess(s.db, s.tasks[k].work.id, s.tasks[k].attempt, s.clock)))
  {
    var t := s.tasks[k];
    hide RecordOk, Progress, DbProgress, Exclusive, SchedOk, OwnedOk, HoldersOk, CountersOk, FilesOk, ClientOk, ResultOk,
         PhaseOk;
    assert Carries(s.db, t);
    var r := s.db.records[t.work.id];
    SucceedKeeps(t.work.id, r, s.clock);
    WrittenResult(s, k);
    hide DbOk, TasksOk;
    SettleWith(s, k, SucceedRecord(r, t.attempt, s.clock));
  }

  /** A success is withdrawn or committed, as the cancel flag says at that moment. */
  lemma {:induction false} SettleDecides(s: Sys, k: nat, payload: Bytes)
    requires Inv(s) && k in s.tasks && s.tasks[k].phase == Decided(WorkerSucceeded(payload))
    ensures Kept(s, DoSettle(s, k))
  {
    NoProgressIsProgress(s.db);
    hide DbOk, Exclusive, SchedOk, OwnedOk, HoldersOk, CountersOk, FilesOk, ClientOk, DbProgress;
    assert PhaseOk(s.stop, s.db, s.outputs, s.results, s.tasks[k]);
    hide TasksOk;
    var phase := if CancelRequested(s.db, s.tasks[k].work.id) then Withdrawing else Committed(payload);
    PhaseFrame(s, k, phase);
    PhaseKeepsTasks(s, k, phase, s.outputs, s.results);
  }

  /** The phases whose settlement ends the executor. */
  predicate Leaving(p: Phase) {
    (p.Decided? && !p.outcome.WorkerSucceeded?) || p.Withdrawing? || p.Written? || p.Raised?
  }

  lemma {:induction false} LeavesWith(s: Sys, k: nat)
    requires k in s.tasks
    ensures Leaving(s.tasks[k].phase) ==> DoSettle(s, k) == Left(s, k, SettleDb(s, s.tasks[k]))
    ensures !Leaving(s.tasks[k].phase) && !s.tasks[k].phase.Decided? ==> DoSettle(s, k) == s
  {
    hide SettleDb, MoveTask, CancelRequested;
  }

  lemma {:induction false} DecidedKeeps(s: Sys, k: nat)
    requires Inv(s) && k in s.tasks && s.tasks[k].phase.Decided? && !s.tasks[k].phase.outcome.WorkerSucceeded?
    ensures Kept(s, Left(s, k, SettleDb(s, s.tasks[k])))
  {
    var t := s.tasks[k];
    hide Inv, Kept, Left, FinishFailure, FinishSuccess, FinishCancelled, StopText;
    match t.phase.outcome
    case KernelStopped =>
      StoppedSees(s, k);
      SettleStopped(s, k);
    case CancelSeen => SettleCancelled(s, k);
    case StopTimeReached => SettleFailed(s, k, TimedOut, StopText(t));
    case WorkerFailed(text) => SettleFailed(s, k, Faulted, WorkerReport(text));
  }

  lemma {:induction false} LeavingKeeps(s: Sys, k: nat)
    requires Inv(s) && k in s.tasks && Leaving(s.tasks[k].phase)
    ensures Kept(s, Left(s, k, SettleDb(s, s.tasks[k])))
  {
    hide Inv, Kept, Left, FinishFailure, FinishSuccess, FinishCancelled;
    match s.tasks[k].phase
    case Decided(_) => DecidedKeeps(s, k);
    case Withdrawing => SettleCancelled(s, k);
    case Written(payload) => SettleWritten(s, k);
    case Raised(text) =>
      if s.stop {
        SettleStopped(s, k);
      } else {
        SettleFailed(s, k, Faulted, ExecutionFailure(text));
      }
  }

  lemma {:induction false} StoppedSees(s: Sys, k: nat)
    requires Inv(s) && k in s.tasks && s.tasks[k].phase == Decided(KernelStopped)
    ensures s.stop
  {
    hide DbOk, Exclusive, SchedOk, OwnedOk, HoldersOk, CountersOk, FilesOk, ClientOk, Carries;
    assert PhaseOk(s.stop, s.db, s.outputs, s.results, s.tasks[k]);
  }

  lemma {:induction false} SettleKeeps(s: Sys, k: nat)
    requires Inv(s)
    ensures Kept(s, DoSettle(s, k))
  {
    NoProgressIsProgress(s.db);
    assert Kept(s, s);
    hide Inv, Kept;
    if k in s.tasks {
      LeavesWith(s, k);
      hide DoSettle, Left, SettleDb;
      if Leaving(s.tasks[k].phase) {
        LeavingKeeps(s, k);
      } else if s.tasks[k].phase.Decided? {
        SettleDecides(s, k, s.tasks[k].phase.outcome.payload);
      }
    }
  }

  lemma {:induction false} ExitKeeps(s: Sys, k: nat)
    requires Inv(s)
    ensures Kept(s, DoExit(s, k))
  {
    hide DbOk, DbProgress, FilesOk, ClientOk, OwnedOk;
    NoProgressIsProgress(s.db);
    if k in s.tasks && s.tasks[k].phase.Settled? {
      var t := DoExit(s, k);
      assert k in s.ledger;
      ReleaseKeepsBalance(s.capacity, s.usage, s.ledger, k);
      forall j, id
        ensures Owns(s.tasks, j, id) <==> Owns(t.tasks, j, id)
      {
      }
      OwnedFrame(s.up, s.stop, s.db, s.tasks, s.sched, s.db, t.tasks, s.sched);
    }
  }

  // The process

  lemma {:induction false} StopKeeps(s: Sys)
    requires Inv(s)
    ensures Kept(s, DoRequestStop(s))
  {
    NoProgressIsProgress(s.db);
    hide DbOk, Exclusive, SchedOk, HoldersOk, CountersOk, FilesOk, ClientOk, DbProgress;
  }

  lemma {:induction false} CrashKeeps(s: Sys)
    requires Inv(s)
    ensures Kept(s, DoCrash(s))
  {
    NoProgressIsProgress(s.db);
    hide DbOk, FilesOk, DbProgress;
  }

  /** With no lease the fresh counters balance. */
  lemma {:induction false} FreshCounters(inventory: seq<Engine>, c: Capacity)
    requires ValidConfiguration(inventory, c)
    ensures CountersOk(true, inventory, c, NO_USAGE, map[])
  {
  }

  lemma {:induction false} RecoverKeepsTable(db: Db, inputs: Files, results: Files, outputs: Outputs, now: int)
    requires DbOk(db) && FilesOk(db, inputs, results, outputs)
    ensures DbOk(Recover(db, now)) && DbProgress(db, Recover(db, now))
    ensures FilesOk(Recover(db, now), inputs, results, outputs)
    ensures forall id :: id in Recover(db, now).records ==> !Recover(db, now).records[id].work.state.Running?
  {
    hide RecordOk, Progress, DbProgress, FilesOk;
    var after := Recover(db, now);
    forall id | id in db.records
      ensures RecordOk(id, after.records[id]) && Progress(db.records[id], after.records[id])
      ensures !after.records[id].work.state.Running?
    {
      RecoverKeeps(id, db.records[id], now);
    }
    hide DbOk;
    MapKeepsDb(db, after);
    FilesFrame(db, inputs, results, outputs, after);
  }

  lemma {:induction false} BootKeeps(s: Sys, inventory: seq<Engine>, capacity: Capacity)
    requires Inv(s)
    ensures Kept(s, DoBoot(s, inventory, capacity))
  {
    NoProgressIsProgress(s.db);
    hide DbOk, FilesOk, DbProgress, Recover;
    if !s.up && ValidConfiguration(inventory, capacity) {
      RecoverKeepsTable(s.db, s.inputs, s.results, s.outputs, s.clock);
      FreshCounters(inventory, capacity);
      hide CountersOk, ValidConfiguration;
    }
  }

  // Steps and runs

  lemma {:induction false} ClockKeeps(s: Sys, time: int)
    requires Inv(s)
    ensures Kept(s, s.(clock := time))
  {
    NoProgressIsProgress(s.db);
  }

  /** Every action keeps the invariant and only makes progress on the records. */
  lemma {:induction false} StepKeeps(s: Sys, a: Action)
    requires Inv(s)
    ensures Inv(Step(s, a)) && DbProgress(s.db, Step(s, a).db)
  {
    hide Inv, DbProgress;
    match a
    case ClockTo(time) => ClockKeeps(s, time);
    case WriteInput(work, payload) => WriteInputKeeps(s, work, payload);
    case InsertWork => InsertWorkKeeps(s);
    case CancelWork(id) => CancelWorkKeeps(s, id);
    case AcknowledgeWork(id) => AcknowledgeWorkKeeps(s, id);
    case RemoveInput => RemoveInputKeeps(s);
    case RemoveResult => RemoveResultKeeps(s);
    case SchedWake => WakeKeeps(s);
    case SchedSweep => SweepKeeps(s);
    case SchedPick => PickKeeps(s);
    case SchedAdmit => AdmitKeeps(s);
    case SchedBegin => BeginKeepsAll(s);
    case SchedLaunch(ok, why) => LaunchKeeps(s, ok, why);
    case SchedReturn => ReturnKeeps(s);
    case TaskStart(k, readable, why) => StartKeeps(s, k, readable, why);
    case TaskDecide(k, outcome) => DecideKeeps(s, k, outcome);
    case TaskThrow(k, why) => ThrowKeeps(s, k, why);
    case TaskSettle(k) => SettleKeeps(s, k);
    case TaskWrite(k) => WriteKeeps(s, k);
    case TaskExit(k) => ExitKeeps(s, k);
    case RequestStop => StopKeeps(s);
    case Crash => CrashKeeps(s);
    case Start(inventory, capacity) => BootKeeps(s, inventory, capacity);
  }

  lemma {:induction false} InitHolds()
    ensures Inv(INIT)
  {
  }

  /** The invariant holds in every state of every run. */
  lemma {:induction false} RunKeeps(s: Sys, actions: seq<Action>)
    requires Inv(s)
    ensures Inv(Run(s, actions))
    decreases |actions|
  {
    if actions != [] {
      StepKeeps(s, actions[0]);
      RunKeeps(Step(s, actions[0]), actions[1..]);
    }
  }
}
