/**
 What the statements of the store mean for the rows of the tables, in the terms of the columns: which Works a statement
 touches, and what it leaves in them.
 */
module Statements {
  import opened Basics
  import opened StoreModel
  import opened RecordInvariant

  /** No Work appears or disappears, and every Work but one keeps its row and its attempts. */
  ghost predicate TouchesOnly(db: Db, after: Db, id: WorkId) {
    && after.lastRow == db.lastRow && after.records.Keys == db.records.Keys
    && forall other :: other in db.records && other != id ==> after.records[other] == db.records[other]
  }

  /** A cancel command ends a queued Work at once, flags a running one, and leaves a finished one alone. */
  ghost predicate CancelledAs(r: Record, t: Record) {
    var w, v := r.work, t.work;
    && t.rows == r.rows
    && (w.state.Queued? ==> v == w.(state := v.state, cancelRequested := true, technicalFailure := CancelledOnRequest))
    && (w.state.Queued? ==> v.state.Cancelled?)
    && (w.state.Running? ==> v == w.(cancelRequested := true))
    && (w.state.Succeeded? || w.state.Failed? || w.state.Cancelled? ==> v == w)
  }

  lemma {:induction false} CancelMeaning(db: Db, id: WorkId)
    ensures TouchesOnly(db, Cancel(db, id), id)
    ensures id in db.records ==> CancelledAs(db.records[id], Cancel(db, id).records[id])
  {
  }

  /** The deadline sweep fails exactly the queued Works whose deadline is not in the future. */
  ghost predicate SweptAs(db: Db, after: Db, now: int) {
    && after.lastRow == db.lastRow && after.records.Keys == db.records.Keys
    && forall id :: id in db.records ==>
         var r, t := db.records[id], after.records[id];
         if r.work.state.Queued? && r.work.request.deadline.Some? && r.work.request.deadline.value <= now
         then t.rows == r.rows && t.work == r.work.(state := Failed, technicalFailure := DeadlineBeforeDispatch)
         else t == r
  }

  lemma {:induction false} ExpireMeaning(db: Db, now: int)
    ensures SweptAs(db, Expire(db, now), now)
  {
  }

  /** Rejecting a Work fails it with the given reason if it is still queued. */
  lemma {:induction false} RejectMeaning(db: Db, id: WorkId, text: Diagnosis)
    requires id in db.records
    ensures TouchesOnly(db, Reject(db, id, text), id)
    ensures var r, t := db.records[id], Reject(db, id, text).records[id];
            if r.work.state.Queued? then t.rows == r.rows && t.work == r.work.(state := Failed, technicalFailure := text)
            else t == r
  {
  }

  /** An attempt starts exactly for a queued Work without a cancel request, under the next number. */
  lemma {:induction false} BeginMeaning(db: Db, id: WorkId, engine: Bytes, model: Bytes, now: int)
    requires id in db.records && RecordOk(id, db.records[id])
    ensures TouchesOnly(db, BeginAttempt(db, id, engine, model, now), id)
    ensures var r, t := db.records[id], BeginAttempt(db, id, engine, model, now).records[id];
            var n := r.work.attemptCount + 1;
            if r.work.state.Queued? && !r.work.cancelRequested then
              && BeginResult(db, id) == Began(n)
              && t.work == r.work.(state := Running, attemptCount := n, selectedEngine := engine, selectedModel := model,
                                   technicalFailure := Empty)
              && n !in r.rows && t.rows == r.rows[n := Attempt(engine, model, now, None, Active, Empty)]
            else BeginResult(db, id) == Lost && t == r
  {
    hide StartsBeforeDeadline, EarlierRowsEnded, FlagsOk;
  }

  /** Recording the end of the running attempt closes it with the given state and text, and gives the Work its own. */
  ghost predicate ClosedAs(r: Record, t: Record, state: WorkState, workText: Diagnosis, ended: AttemptState,
                           text: Diagnosis, now: int) {
    var n := r.work.attemptCount;
    && t.work == r.work.(state := state, technicalFailure := workText)
    && n in r.rows
    && t.rows == r.rows[n := r.rows[n].(state := ended, endedAt := Some(now), technicalFailure := text)]
  }

  lemma {:induction false} FinishMeaning(db: Db, id: WorkId, n: int, now: int)
    requires id in db.records && RecordOk(id, db.records[id])
    requires db.records[id].work.state.Running? && n == db.records[id].work.attemptCount
    ensures TouchesOnly(db, FinishSuccess(db, id, n, now), id) && TouchesOnly(db, FinishCancelled(db, id, n, now), id)
    ensures ClosedAs(db.records[id], FinishSuccess(db, id, n, now).records[id], Succeeded, Empty, Completed, Empty, now)
    ensures ClosedAs(db.records[id], FinishCancelled(db, id, n, now).records[id], Cancelled, CancelledOnRequest, Withdrawn,
                     CancelledOnRequest, now)
  {
    hide StartsBeforeDeadline, EarlierRowsEnded, FlagsOk;
  }

  /** A new Work is inserted behind all others, queued and without attempts; a known id changes nothing. */
  lemma {:induction false} SubmitMeaning(db: Db, w: Work)
    ensures w.id in db.records ==> Submit(db, w) == db
    ensures w.id !in db.records ==>
              && Submit(db, w).records.Keys == db.records.Keys + {w.id} && Submit(db, w).lastRow == db.lastRow + 1
              && (forall other :: other in db.records ==> Submit(db, w).records[other] == db.records[other])
              && var r := Submit(db, w).records[w.id];
                 && r.rows == map[] && r.work.rowid == db.lastRow + 1
                 && r.work.id == w.id && r.work.request == w.request && r.work.state == w.state
                 && r.work.nextAttemptAt == w.nextAttemptAt && r.work.attemptCount == 0
                 && !r.work.acknowledged && !r.work.cancelRequested
                 && r.work.selectedEngine == [] && r.work.selectedModel == [] && r.work.technicalFailure == Empty
  {
  }

  /** An acknowledgement marks a succeeded Work that has none, and does nothing else. */
  lemma {:induction false} AcknowledgeMeaning(db: Db, id: WorkId)
    requires id in db.records
    ensures TouchesOnly(db, Acknowledge(db, id), id)
    ensures var r, t := db.records[id], Acknowledge(db, id).records[id];
            && t.rows == r.rows
            && t.work == if r.work.state.Succeeded? then r.work.(acknowledged := true) else r.work
    ensures Acknowledgeable(db.records[id]) <==> db.records[id].work.state.Succeeded? && !db.records[id].work.acknowledged
  {
  }

  // The dispatch order

  /** `u` is the more pressing of two urgencies. */
  predicate MorePressing(u: Urgency, v: Urgency) {
    || (u.Interactive? && !v.Interactive?)
    || (u.Normal? && v.Background?)
  }

  /** The order of dispatch: the more pressing Work, then the older one, then the one that was inserted first. */
  lemma {:induction false} OrderMeaning(a: Work, b: Work)
    ensures MorePressing(a.request.urgency, b.request.urgency) ==> Before(a, b)
    ensures a.request.urgency == b.request.urgency ==>
              (Before(a, b) <==>
                 || a.request.createdAt < b.request.createdAt
                 || (a.request.createdAt == b.request.createdAt && a.rowid < b.rowid))
    ensures MorePressing(b.request.urgency, a.request.urgency) ==> !Before(a, b)
  {
  }

  /** A Work that may start at `now`. */
  predicate MayStart(w: Work, now: int) {
    && w.state.Queued? && !w.cancelRequested
    && w.request.eligibleAt <= now && w.nextAttemptAt <= now
  }

  /** The Work may start, no Work that may start is more pressing, and of the equally pressing ones it came first. */
  ghost predicate ComesFirst(db: Db, now: int, id: WorkId) {
    && id in db.records && MayStart(db.records[id].work, now)
    && forall other :: other in db.records && MayStart(db.records[other].work, now) ==>
                         ServedBefore(db.records[id].work, db.records[other].work)
  }

  predicate ServedBefore(w: Work, v: Work) {
    && !MorePressing(v.request.urgency, w.request.urgency)
    && (v.request.urgency == w.request.urgency ==>
          && w.request.createdAt <= v.request.createdAt
          && (w.request.createdAt == v.request.createdAt ==> w.rowid <= v.rowid))
  }

  /** The scan finds a Work whenever one may start, and it is the one that comes first. */
  lemma {:induction false} ScanMeaning(db: Db, now: int)
    requires RowidsDistinct(db)
    ensures NextEligible(db, now).None? <==> forall id :: id in db.records ==> !MayStart(db.records[id].work, now)
    ensures NextEligible(db, now).Some? ==> ComesFirst(db, now, NextEligible(db, now).value)
    ensures forall id :: ComesFirst(db, now, id) ==> NextEligible(db, now) == Some(id)
  {
    NextEligibleMeaning(db, now);
    hide NextEligible;
    forall id | IsNext(db, now, id)
      ensures ComesFirst(db, now, id)
    {
      NextComesFirst(db, now, id);
    }
    forall id | ComesFirst(db, now, id)
      ensures NextEligible(db, now) == Some(id)
    {
      assert Eligible(db.records[id].work, now);
      var head := NextEligible(db, now).value;
      NextComesFirst(db, now, head);
      hide MayStart, IsNext;
      if head != id {
        assert ServedBefore(db.records[id].work, db.records[head].work);
        assert ServedBefore(db.records[head].work, db.records[id].work);
        SameUrgency(db.records[id].work.request.urgency, db.records[head].work.request.urgency);
        assert false;
      }
    }
  }

  lemma {:induction false} SameUrgency(u: Urgency, v: Urgency)
    requires !MorePressing(u, v) && !MorePressing(v, u)
    ensures u == v
  {
  }

  lemma {:induction false} NextComesFirst(db: Db, now: int, id: WorkId)
    requires IsNext(db, now, id)
    ensures ComesFirst(db, now, id)
  {
    var w := db.records[id].work;
    forall other | other in db.records && MayStart(db.records[other].work, now)
      ensures ServedBefore(w, db.records[other].work)
    {
      assert Eligible(db.records[other].work, now);
      OrderMeaning(w, db.records[other].work);
    }
  }
}
