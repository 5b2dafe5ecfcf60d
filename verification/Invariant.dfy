/** The invariant of the whole system. Each part names the components it depends on. */
module Invariant {
  import opened Basics
  import opened StoreModel
  import opened ResourceModel
  import opened Selection
  import opened RecordInvariant
  import opened System

  type Tasks = map<nat, Task>
  type Outputs = map<(WorkId, int), Bytes>
  type Files = map<WorkId, Bytes>

  ghost predicate DbOk(db: Db) {
    && (forall id :: id in db.records ==> RecordOk(id, db.records[id]))
    && (forall id :: id in db.records ==> db.records[id].work.rowid <= db.lastRow)
    && RowidsDistinct(db)
  }

  /** The Work is running the very attempt that the executor began. */
  predicate Carries(db: Db, t: Task) {
    && t.work.id in db.records
    && var w := db.records[t.work.id].work;
       w.state.Running? && w.attemptCount == t.attempt && w.request == t.work.request
  }

  predicate Produced(outputs: Outputs, t: Task, payload: Bytes) {
    (t.work.id, t.attempt) in outputs && outputs[(t.work.id, t.attempt)] == payload
  }

  predicate PhaseOk(stop: bool, db: Db, outputs: Outputs, results: Files, t: Task) {
    match t.phase
    case Decided(KernelStopped) => stop
    case Decided(CancelSeen) => CancelRequested(db, t.work.id)
    case Withdrawing => CancelRequested(db, t.work.id)
    case Decided(WorkerSucceeded(p)) => Produced(outputs, t, p)
    case Committed(p) => Produced(outputs, t, p)
    case Written(p) => Produced(outputs, t, p) && t.work.id in results && results[t.work.id] == p
    case _ => true
  }

  ghost predicate TasksOk(stop: bool, db: Db, outputs: Outputs, results: Files, tasks: Tasks) {
    forall k :: k in tasks && !tasks[k].phase.Settled? ==>
                  Carries(db, tasks[k]) && PhaseOk(stop, db, outputs, results, tasks[k])
  }

  /** Task `k` is the live executor of Work `id`. */
  predicate Owns(tasks: Tasks, k: nat, id: WorkId) {
    k in tasks && !tasks[k].phase.Settled? && tasks[k].work.id == id
  }

  /** No Work has two executors. */
  ghost predicate Exclusive(tasks: Tasks) {
    forall j, k :: j in tasks && Owns(tasks, k, tasks[j].work.id) && !tasks[j].phase.Settled? ==> j == k
  }

  /** The scheduler's copy of a row is current unless the Work was cancelled meanwhile. */
  predicate SnapshotOk(db: Db, w: Work) {
    w.id in db.records && (db.records[w.id].work == w || db.records[w.id].work.state.Cancelled?)
  }

  ghost predicate SchedOk(sched: Scheduler, db: Db, tasks: Tasks, inventory: seq<Engine>) {
    match sched
    case Picked(now, w) => SnapshotOk(db, w) && Eligible(w, now)
    case Admitted(now, w, e, m, lease) =>
      SnapshotOk(db, w) && Eligible(w, now) && Select(w.request, inventory) == Chosen(e, m)
    case Begun(w, n, startedAt, lease) =>
      Carries(db, Task(w, n, startedAt, Launched)) && forall k :: !Owns(tasks, k, w.id)
    case _ => true
  }

  ghost predicate HasOwner(tasks: Tasks, sched: Scheduler, id: WorkId) {
    (exists k :: Owns(tasks, k, id)) || (sched.Begun? && sched.work.id == id)
  }

  /** While the Kernel runs and is not stopping, every running Work has an executor or is being launched. */
  ghost predicate OwnedOk(up: bool, stop: bool, db: Db, tasks: Tasks, sched: Scheduler) {
    up && !stop ==>
      forall id :: id in db.records && db.records[id].work.state.Running? ==> HasOwner(tasks, sched, id)
  }

  predicate HeldByScheduler(sched: Scheduler, k: nat) {
    (sched.Admitted? || sched.Begun? || sched.Returning?) && sched.lease == k
  }

  /** Every live lease has exactly one holder. */
  ghost predicate HoldersOk(ledger: map<nat, Requirement>, tasks: Tasks, sched: Scheduler, nextLease: nat) {
    && (forall k :: k in ledger <==> k in tasks || HeldByScheduler(sched, k))
    && (forall k :: k in tasks ==> !HeldByScheduler(sched, k))
    && (forall k :: k in ledger ==> k < nextLease)
  }

  ghost predicate CountersOk(up: bool, inventory: seq<Engine>, c: Capacity, u: Usage, ledger: map<nat, Requirement>) {
    if up then ValidConfiguration(inventory, c) && Balanced(c, u, ledger) else u == NO_USAGE && ledger == map[]
  }

  /** The result of a succeeded Work is on disk until it is acknowledged, and is what the last attempt produced. */
  predicate ResultOk(results: Files, outputs: Outputs, id: WorkId, w: Work) {
    w.state.Succeeded? && !w.acknowledged ==>
      && id in results
      && (id, w.attemptCount) in outputs
      && results[id] == outputs[(id, w.attemptCount)]
  }

  ghost predicate FilesOk(db: Db, inputs: Files, results: Files, outputs: Outputs) {
    forall id :: id in db.records ==>
                   && (!db.records[id].work.acknowledged ==> id in inputs)
                   && ResultOk(results, outputs, id, db.records[id].work)
  }

  predicate ClientOk(client: Client, db: Db, inputs: Files) {
    match client
    case Ready => true
    case InputWritten(w) => w.id !in db.records && w.id in inputs && NewWork(w, w.request.createdAt)
    case Acknowledged(id) => id in db.records && db.records[id].work.acknowledged
    case InputRemoved(id) => id in db.records && db.records[id].work.acknowledged
  }

  predicate DownOk(up: bool, stop: bool, tasks: Tasks, sched: Scheduler, client: Client) {
    !up ==> tasks == map[] && sched.Idle? && client.Ready? && !stop
  }

  ghost predicate Inv(s: Sys) {
    && DbOk(s.db)
    && TasksOk(s.stop, s.db, s.outputs, s.results, s.tasks)
    && Exclusive(s.tasks)
    && SchedOk(s.sched, s.db, s.tasks, s.inventory)
    && OwnedOk(s.up, s.stop, s.db, s.tasks, s.sched)
    && HoldersOk(s.ledger, s.tasks, s.sched, s.nextLease)
    && CountersOk(s.up, s.inventory, s.capacity, s.usage, s.ledger)
    && FilesOk(s.db, s.inputs, s.results, s.outputs)
    && ClientOk(s.client, s.db, s.inputs)
    && DownOk(s.up, s.stop, s.tasks, s.sched, s.client)
  }

  /** One step on the table: no row disappears, and each row only makes progress. */
  ghost predicate DbProgress(a: Db, b: Db) {
    forall id :: id in a.records ==> id in b.records && Progress(a.records[id], b.records[id])
  }

  ghost predicate Kept(s: Sys, t: Sys) {
    Inv(t) && DbProgress(s.db, t.db)
  }

  lemma {:induction false} NoProgressIsProgress(db: Db)
    ensures DbProgress(db, db)
  {
  }
}
