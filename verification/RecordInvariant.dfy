/** What every record of the store satisfies, and why each store statement keeps it. */
module RecordInvariant {
  import opened Basics
  import opened StoreModel

  predicate Ended(a: Attempt) {
    a.endedAt.Some? && !a.state.Active? && !a.state.Completed?
  }

  ghost predicate RowNumbersOk(r: Record) {
    && 0 <= r.work.attemptCount <= r.work.request.maxAttempts
    && forall k :: k in r.rows <==> 1 <= k <= r.work.attemptCount
  }

  /** Every row but the last has ended without success. */
  ghost predicate EarlierRowsEnded(r: Record) {
    forall k :: k in r.rows && k < r.work.attemptCount ==> Ended(r.rows[k])
  }

  function LastRow(r: Record): Attempt
    requires r.work.attemptCount in r.rows
  {
    r.rows[r.work.attemptCount]
  }

  /** The last row agrees with the Work: running, succeeded, or ended without success. */
  ghost predicate LastRowAgrees(r: Record) {
    var w := r.work;
    && (w.state.Running? <==> w.attemptCount in r.rows && LastRow(r).state.Active?)
    && (w.state.Succeeded? <==> w.attemptCount in r.rows && LastRow(r).state.Completed?)
    && (w.attemptCount in r.rows ==> (LastRow(r).endedAt.None? <==> LastRow(r).state.Active?))
    && (w.state.Running? || w.state.Succeeded? ==>
          w.selectedEngine == LastRow(r).engine && w.selectedModel == LastRow(r).model)
  }

  predicate FlagsOk(w: Work) {
    && (w.state.Queued? ==> w.attemptCount < w.request.maxAttempts && !w.cancelRequested)
    && (w.cancelRequested ==> w.state.Running? || w.state.Succeeded? || w.state.Cancelled?)
    && (w.state.Cancelled? ==> w.cancelRequested)
    && (w.acknowledged ==> w.state.Succeeded?)
    && w.request.retryDelay >= 0
  }

  /** Every attempt started strictly before the deadline. */
  ghost predicate StartsBeforeDeadline(r: Record) {
    r.work.request.deadline.Some? ==> forall k :: k in r.rows ==> r.rows[k].startedAt < r.work.request.deadline.value
  }

  ghost predicate RecordOk(id: WorkId, r: Record) {
    && r.work.id == id
    && RowNumbersOk(r)
    && EarlierRowsEnded(r)
    && LastRowAgrees(r)
    && FlagsOk(r.work)
    && StartsBeforeDeadline(r)
  }

  /** How far a Work is from rest; every change of its state decreases it. */
  function Measure(w: Work): int {
    if w.state.Queued? then 2 * (w.request.maxAttempts - w.attemptCount)
    else if w.state.Running? then 2 * (w.request.maxAttempts - w.attemptCount) + 1
    else 0
  }

  /** One store statement on one record: the request never changes, and a change of state makes progress. */
  predicate Progress(a: Record, b: Record) {
    && b.work.request == a.work.request
    && b.work.id == a.work.id
    && b.work.rowid == a.work.rowid
    && (b.work.state == a.work.state ==> b.work.attemptCount == a.work.attemptCount)
    && (b.work.state != a.work.state ==> 0 <= Measure(b.work) < Measure(a.work))
    && (a.work.cancelRequested ==> b.work.cancelRequested && b.work.attemptCount == a.work.attemptCount)
    && (a.work.acknowledged ==> b.work.acknowledged)
  }

  lemma {:induction false} BeginKeeps(id: WorkId, r: Record, engine: Bytes, model: Bytes, now: int)
    requires RecordOk(id, r) && Startable(r)
    requires r.work.request.deadline.Some? ==> now < r.work.request.deadline.value
    ensures r.work.attemptCount + 1 !in r.rows
    ensures RecordOk(id, BeginRecord(r, engine, model, now)) && Progress(r, BeginRecord(r, engine, model, now))
  {
  }

  lemma {:induction false} SucceedKeeps(id: WorkId, r: Record, now: int)
    requires RecordOk(id, r) && r.work.state.Running?
    ensures RecordOk(id, SucceedRecord(r, r.work.attemptCount, now))
    ensures Progress(r, SucceedRecord(r, r.work.attemptCount, now))
  {
  }

  lemma {:induction false} CancelRunningKeeps(id: WorkId, r: Record, now: int)
    requires RecordOk(id, r) && r.work.state.Running? && r.work.cancelRequested
    ensures RecordOk(id, CancelRunningRecord(r, r.work.attemptCount, now))
    ensures Progress(r, CancelRunningRecord(r, r.work.attemptCount, now))
  {
  }

  lemma {:induction false} FailKeeps(id: WorkId, r: Record, state: AttemptState, text: Diagnosis, now: int)
    requires RecordOk(id, r) && r.work.state.Running?
    requires state.Faulted? || state.TimedOut?
    ensures RecordOk(id, FailRecord(r, r.work.attemptCount, state, text, now))
    ensures Progress(r, FailRecord(r, r.work.attemptCount, state, text, now))
    ensures !FailRecord(r, r.work.attemptCount, state, text, now).work.state.Running?
  {
  }

  lemma {:induction false} RecoverKeeps(id: WorkId, r: Record, now: int)
    requires RecordOk(id, r)
    ensures RecordOk(id, RecoverRecord(r, now)) && Progress(r, RecoverRecord(r, now))
    ensures !RecoverRecord(r, now).work.state.Running?
  {
  }

  lemma {:induction false} ExpireKeeps(id: WorkId, r: Record, now: int)
    requires RecordOk(id, r)
    ensures RecordOk(id, ExpireRecord(r, now)) && Progress(r, ExpireRecord(r, now))
  {
  }

  lemma {:induction false} RejectKeeps(id: WorkId, r: Record, text: Diagnosis)
    requires RecordOk(id, r)
    ensures RecordOk(id, RejectRecord(r, text)) && Progress(r, RejectRecord(r, text))
  {
  }

  lemma {:induction false} CancelKeeps(id: WorkId, r: Record)
    requires RecordOk(id, r)
    ensures RecordOk(id, CancelRecord(r)) && Progress(r, CancelRecord(r))
  {
  }

  lemma {:induction false} AcknowledgeKeeps(id: WorkId, r: Record)
    requires RecordOk(id, r) && Acknowledgeable(r)
    ensures RecordOk(id, r.(work := r.work.(acknowledged := true)))
    ensures Progress(r, r.(work := r.work.(acknowledged := true)))
  {
  }
}
