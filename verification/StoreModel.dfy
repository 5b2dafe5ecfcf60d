/**
 The two tables of the durable Work store as one value, and every store method as a function on it. A record pairs
 a row of the `work` table with the rows of the `attempts` table that carry its id.
 */
module StoreModel {
  import opened Basics

  type WorkId = string

  datatype WorkState = Queued | Running | Succeeded | Failed | Cancelled

  datatype AttemptState = Active | Completed | Faulted | Interrupted | TimedOut | Withdrawn

  datatype Urgency = Interactive | Normal | Background

  datatype Effort = Standard | High

  /** The filter stages of engine selection, in their order. */
  datatype Stage = WorkTypeStage | CapabilityStage | AllowlistStage | ExactStage | EffortStage | AvailabilityStage

  /** The `technical_failure` column, one constructor for each text that the program writes there. */
  datatype Diagnosis =
    | Empty
    | CancelledOnRequest
    | CancelledBeforeRecovery
    | KernelRestarted
    | DeadlineBeforeDispatch
    | DeadlineDuringAttempt
    | AttemptTimeout
    | InsufficientCapacity
    | Unmatched(stage: Stage)
    | LaunchFailure(why: Bytes)
    | ExecutionFailure(why: Bytes)
    | WorkerReport(text: Bytes)

  /** The columns of a Work that no statement of the store ever updates. */
  datatype Request = Request(
    workType: Bytes,
    effort: Effort,
    urgency: Urgency,
    requiredCapabilities: Bytes,
    eligibleEngineIds: Bytes,
    exactEngineId: Bytes,
    exactModelId: Bytes,
    createdAt: int,
    eligibleAt: int,
    deadline: Option<int>,
    timeout: Option<int>,
    maxAttempts: int,
    retryDelay: int)

  /** A row of the `work` table; `rowid` is SQLite's insertion counter. */
  datatype Work = Work(
    id: WorkId,
    request: Request,
    rowid: nat,
    state: WorkState,
    nextAttemptAt: int,
    attemptCount: int,
    acknowledged: bool,
    cancelRequested: bool,
    selectedEngine: Bytes,
    selectedModel: Bytes,
    technicalFailure: Diagnosis)

  /** A row of the `attempts` table without its key. */
  datatype Attempt = Attempt(
    engine: Bytes,
    model: Bytes,
    startedAt: int,
    endedAt: Option<int>,
    state: AttemptState,
    technicalFailure: Diagnosis)

  datatype Record = Record(work: Work, rows: map<int, Attempt>)

  datatype Db = Db(records: map<WorkId, Record>, lastRow: nat)

  /** How `begin_attempt` can end: a new attempt, a lost race, or a primary key violation. */
  datatype Begin = Began(attempt: int) | Lost | KeyConflict

  const EMPTY_DB := Db(map[], 0)

  function Rank(u: Urgency): int {
    match u
    case Interactive => 0
    case Normal => 1
    case Background => 2
  }

  predicate RetryPermitted(w: Work, now: int) {
    && w.attemptCount < w.request.maxAttempts
    && (w.request.deadline.Some? ==> now + w.request.retryDelay < w.request.deadline.value)
  }

  // The statements on one record

  /** `UPDATE attempts ... WHERE attempt_number = n AND state = 'RUNNING'` */
  function EndRow(rows: map<int, Attempt>, n: int, state: AttemptState, text: Diagnosis, now: int): map<int, Attempt> {
    if n in rows && rows[n].state.Active?
    then rows[n := rows[n].(state := state, endedAt := Some(now), technicalFailure := text)]
    else rows
  }

  /** The Work a failed or interrupted attempt leaves behind. */
  function AfterFailure(w: Work, text: Diagnosis, cancelText: Diagnosis, now: int): Work {
    if w.cancelRequested then w.(state := Cancelled, technicalFailure := cancelText)
    else if RetryPermitted(w, now) then
      w.(state := Queued, nextAttemptAt := now + w.request.retryDelay, technicalFailure := text,
         selectedEngine := [], selectedModel := [])
    else w.(state := Failed, technicalFailure := text)
  }

  function BeginRecord(r: Record, engine: Bytes, model: Bytes, now: int): Record {
    var n := r.work.attemptCount + 1;
    Record(
      r.work.(state := Running, attemptCount := n, selectedEngine := engine, selectedModel := model,
              technicalFailure := Empty),
      r.rows[n := Attempt(engine, model, now, None, Active, Empty)])
  }

  function SucceedRecord(r: Record, n: int, now: int): Record {
    Record(if r.work.state.Running? then r.work.(state := Succeeded, technicalFailure := Empty) else r.work,
           EndRow(r.rows, n, Completed, Empty, now))
  }

  function CancelRunningRecord(r: Record, n: int, now: int): Record {
    Record(if r.work.state.Running? then r.work.(state := Cancelled, technicalFailure := CancelledOnRequest) else r.work,
           EndRow(r.rows, n, Withdrawn, CancelledOnRequest, now))
  }

  function FailRecord(r: Record, n: int, state: AttemptState, text: Diagnosis, now: int): Record {
    if r.work.state.Running? then
      Record(AfterFailure(r.work, text, CancelledOnRequest, now), EndRow(r.rows, n, state, text, now))
    else r
  }

  function RecoverRecord(r: Record, now: int): Record {
    if r.work.state.Running? then
      Record(AfterFailure(r.work, KernelRestarted, CancelledBeforeRecovery, now),
             EndRow(r.rows, r.work.attemptCount, Interrupted, KernelRestarted, now))
    else r
  }

  function ExpireRecord(r: Record, now: int): Record {
    if r.work.state.Queued? && r.work.request.deadline.Some? && r.work.request.deadline.value <= now
    then r.(work := r.work.(state := Failed, technicalFailure := DeadlineBeforeDispatch))
    else r
  }

  function RejectRecord(r: Record, text: Diagnosis): Record {
    if r.work.state.Queued? then r.(work := r.work.(state := Failed, technicalFailure := text)) else r
  }

  function CancelRecord(r: Record): Record {
    match r.work.state
    case Queued => r.(work := r.work.(state := Cancelled, cancelRequested := true, technicalFailure := CancelledOnRequest))
    case Running => r.(work := r.work.(cancelRequested := true))
    case _ => r
  }

  predicate Acknowledgeable(r: Record) {
    r.work.state.Succeeded? && !r.work.acknowledged
  }

  predicate Startable(r: Record) {
    r.work.state.Queued? && !r.work.cancelRequested
  }

  // The store methods

  function Put(db: Db, id: WorkId, r: Record): Db {
    db.(records := db.records[id := r])
  }

  /** `INSERT INTO work`; an id that is already present violates the primary key and changes nothing. */
  function Submit(db: Db, w: Work): Db {
    if w.id in db.records then db
    else
      var row := w.(rowid := db.lastRow + 1, attemptCount := 0, acknowledged := false, cancelRequested := false,
                    selectedEngine := [], selectedModel := [], technicalFailure := Empty);
      Db(db.records[w.id := Record(row, map[])], db.lastRow + 1)
  }

  function BeginResult(db: Db, id: WorkId): Begin {
    if id !in db.records || !Startable(db.records[id]) then Lost
    else
      var n := db.records[id].work.attemptCount + 1;
      if n in db.records[id].rows then KeyConflict else Began(n)
  }

  function BeginAttempt(db: Db, id: WorkId, engine: Bytes, model: Bytes, now: int): Db {
    if BeginResult(db, id).Began? then Put(db, id, BeginRecord(db.records[id], engine, model, now)) else db
  }

  function FinishSuccess(db: Db, id: WorkId, n: int, now: int): Db {
    if id in db.records then Put(db, id, SucceedRecord(db.records[id], n, now)) else db
  }

  function FinishCancelled(db: Db, id: WorkId, n: int, now: int): Db {
    if id in db.records then Put(db, id, CancelRunningRecord(db.records[id], n, now)) else db
  }

  function FinishFailure(db: Db, id: WorkId, n: int, state: AttemptState, text: Diagnosis, now: int): Db {
    if id in db.records then Put(db, id, FailRecord(db.records[id], n, state, text, now)) else db
  }

  function Recover(db: Db, now: int): Db {
    db.(records := map id | id in db.records :: RecoverRecord(db.records[id], now))
  }

  function Expire(db: Db, now: int): Db {
    db.(records := map id | id in db.records :: ExpireRecord(db.records[id], now))
  }

  function Reject(db: Db, id: WorkId, text: Diagnosis): Db {
    if id in db.records then Put(db, id, RejectRecord(db.records[id], text)) else db
  }

  function Cancel(db: Db, id: WorkId): Db {
    if id in db.records then Put(db, id, CancelRecord(db.records[id])) else db
  }

  function Acknowledge(db: Db, id: WorkId): Db {
    if id in db.records && Acknowledgeable(db.records[id])
    then Put(db, id, db.records[id].(work := db.records[id].work.(acknowledged := true)))
    else db
  }

  predicate CancelRequested(db: Db, id: WorkId) {
    id in db.records && db.records[id].work.cancelRequested
  }

  // The dispatch order

  predicate Eligible(w: Work, now: int) {
    w.state.Queued? && !w.cancelRequested && w.request.eligibleAt <= now && w.nextAttemptAt <= now
  }

  /** `ORDER BY urgency rank, created_at_ms, rowid`, strictly. */
  predicate Before(a: Work, b: Work) {
    || Rank(a.request.urgency) < Rank(b.request.urgency)
    || (&& Rank(a.request.urgency) == Rank(b.request.urgency)
        && (|| a.request.createdAt < b.request.createdAt
            || (a.request.createdAt == b.request.createdAt && a.rowid < b.rowid)))
  }

  predicate RowidsDistinct(db: Db) {
    forall a, b :: a in db.records && b in db.records && a != b ==>
                     db.records[a].work.rowid != db.records[b].work.rowid
  }

  /** `id` heads the dispatch order among the Works eligible at `now`. */
  predicate IsNext(db: Db, now: int, id: WorkId) {
    && id in db.records
    && Eligible(db.records[id].work, now)
    && forall other :: other in db.records && other != id && Eligible(db.records[other].work, now) ==>
                         Before(db.records[id].work, db.records[other].work)
  }

  predicate NoneEligible(db: Db, now: int) {
    forall id :: id in db.records ==> !Eligible(db.records[id].work, now)
  }

  ghost function NextEligible(db: Db, now: int): Option<WorkId> {
    if exists id :: IsNext(db, now, id) then var id :| IsNext(db, now, id); Some(id) else None
  }

  /** Two heads of the order are the same Work. */
  lemma {:induction false} NextIsUnique(db: Db, now: int, a: WorkId, b: WorkId)
    requires IsNext(db, now, a) && IsNext(db, now, b)
    ensures a == b
  {
  }

  lemma {:induction false} BeforeIsTotal(a: Work, b: Work)
    requires a.rowid != b.rowid
    ensures Before(a, b) || Before(b, a)
  {
  }

  lemma {:induction false} BeforeIsTransitive(a: Work, b: Work, c: Work)
    requires Before(a, b) && Before(b, c)
    ensures Before(a, c)
  {
  }

  /** A non-empty set of eligible Works has a head. */
  lemma {:induction false} HeadExists(db: Db, now: int, ids: set<WorkId>) returns (head: WorkId)
    requires RowidsDistinct(db)
    requires ids != {}
    requires forall id :: id in ids ==> id in db.records && Eligible(db.records[id].work, now)
    ensures head in ids
    ensures forall id :: id in ids && id != head ==> Before(db.records[head].work, db.records[id].work)
    decreases ids
  {
    hide Before, Eligible;
    var first :| first in ids;
    head := first;
    var rest := ids - {first};
    if rest != {} {
      var other := HeadExists(db, now, rest);
      assert other != first;
      BeforeIsTotal(db.records[first].work, db.records[other].work);
      if Before(db.records[other].work, db.records[first].work) {
        head := other;
      }
      forall id | id in ids && id != head
        ensures Before(db.records[head].work, db.records[id].work)
      {
        if id != first && id != other {
          assert id in rest;
          if head == first {
            BeforeIsTransitive(db.records[first].work, db.records[other].work, db.records[id].work);
          }
        }
      }
    } else {
      assert forall id :: id in ids ==> id == first by {
        forall id | id in ids
          ensures id == first
        {
          assert id !in rest;
        }
      }
    }
  }

  /** The query returns no row exactly when no Work is eligible, and otherwise the unique head of the order. */
  lemma {:induction false} NextEligibleMeaning(db: Db, now: int)
    requires RowidsDistinct(db)
    ensures NextEligible(db, now).None? <==> NoneEligible(db, now)
    ensures NextEligible(db, now).Some? ==> IsNext(db, now, NextEligible(db, now).value)
  {
    var ids := set id | id in db.records && Eligible(db.records[id].work, now);
    if ids != {} {
      var head := HeadExists(db, now, ids);
      assert head in ids;
      forall other | other in db.records && other != head && Eligible(db.records[other].work, now)
        ensures Before(db.records[head].work, db.records[other].work)
      {
        assert other in ids;
      }
      assert IsNext(db, now, head);
    } else {
      forall id | id in db.records
        ensures !Eligible(db.records[id].work, now)
      {
        assert id !in ids;
      }
    }
  }
}
