/**
 The store as the source has it: two tables updated in place. Every method is tied to the function of `StoreModel`
 that says what it does to the records, and `Valid` is kept by all of them.
 */
module WorkStoreClass {
  import opened Basics
  import opened Statements
  import opened StoreModel

  type AttemptKey = (WorkId, int)

  /** The records are exactly the two tables joined on the Work id. */
  ghost predicate Joined(records: map<WorkId, Record>, work: map<WorkId, Work>, attempts: map<AttemptKey, Attempt>) {
    && (forall id :: id in records <==> id in work)
    && (forall id :: id in records ==> records[id].work == work[id])
    && (forall id, n :: id in records && n in records[id].rows ==>
                          (id, n) in attempts && records[id].rows[n] == attempts[(id, n)])
    && (forall key :: key in attempts ==> key.0 in records && key.1 in records[key.0].rows)
  }

  /** Two joins of the same tables are equal: the join is a function of the tables. */
  lemma {:induction false} JoinIsUnique(a: map<WorkId, Record>, b: map<WorkId, Record>,
                     work: map<WorkId, Work>, attempts: map<AttemptKey, Attempt>)
    requires Joined(a, work, attempts) && Joined(b, work, attempts)
    ensures a == b
  {
    forall id | id in a
      ensures a[id] == b[id]
    {
      forall n
        ensures n in a[id].rows <==> n in b[id].rows
        ensures n in a[id].rows && n in b[id].rows ==> a[id].rows[n] == b[id].rows[n]
      {
        var key := (id, n);
        if n in a[id].rows {
          assert key in attempts;
        }
        if n in b[id].rows {
          assert key in attempts;
        }
      }
      assert a[id].rows == b[id].rows;
    }
  }

  /** What the tables always satisfy: they join to the records, ids match their keys, and row ids are distinct. */
  ghost predicate TablesOk(records: map<WorkId, Record>, work: map<WorkId, Work>, attempts: map<AttemptKey, Attempt>,
                           lastRow: nat) {
    && Joined(records, work, attempts)
    && (forall id :: id in work ==> work[id].id == id && work[id].rowid <= lastRow)
    && (forall a, b :: a in work && b in work && a != b ==> work[a].rowid != work[b].rowid)
  }

  lemma {:induction false} LookUp(records: map<WorkId, Record>, work: map<WorkId, Work>, attempts: map<AttemptKey, Attempt>,
               lastRow: nat, id: WorkId, n: int)
    requires TablesOk(records, work, attempts, lastRow)
    ensures id in records <==> id in work
    ensures id in records ==> records[id].work == work[id] && work[id].id == id
    ensures id in records ==> (n in records[id].rows <==> (id, n) in attempts)
    ensures id in records && n in records[id].rows ==> records[id].rows[n] == attempts[(id, n)]
  {
    var key := (id, n);
    assert key in attempts ==> key.0 in records && key.1 in records[key.0].rows;
  }

  lemma {:induction false} InsertKeepsTables(records: map<WorkId, Record>, work: map<WorkId, Work>, attempts: map<AttemptKey, Attempt>,
                          lastRow: nat, w: Work)
    requires TablesOk(records, work, attempts, lastRow)
    requires w.id !in work && w.rowid == lastRow + 1
    ensures TablesOk(records[w.id := Record(w, map[])], work[w.id := w], attempts, lastRow + 1)
  {
  }

  /** `UPDATE attempts ... WHERE work_id = id AND attempt_number = n AND state = 'RUNNING'` */
  function EndKey(attempts: map<AttemptKey, Attempt>, id: WorkId, n: int, state: AttemptState, text: Diagnosis, now: int)
    : map<AttemptKey, Attempt>
  {
    var key := (id, n);
    if key in attempts && attempts[key].state.Active?
    then attempts[key := attempts[key].(state := state, endedAt := Some(now), technicalFailure := text)]
    else attempts
  }

  lemma {:induction false} WorkUpdateKeepsTables(records: map<WorkId, Record>, work: map<WorkId, Work>, attempts: map<AttemptKey, Attempt>,
                              lastRow: nat, w: Work)
    requires TablesOk(records, work, attempts, lastRow)
    requires w.id in work && w.rowid == work[w.id].rowid
    ensures TablesOk(records[w.id := Record(w, records[w.id].rows)], work[w.id := w], attempts, lastRow)
  {
  }

  lemma {:induction false} AttemptWriteKeepsTables(records: map<WorkId, Record>, work: map<WorkId, Work>,
                                attempts: map<AttemptKey, Attempt>, lastRow: nat, id: WorkId, n: int, a: Attempt)
    requires TablesOk(records, work, attempts, lastRow)
    requires id in work
    ensures TablesOk(records[id := Record(work[id], records[id].rows[n := a])], work, attempts[(id, n) := a], lastRow)
  {
  }

  /** One transaction: an attempt write and an update of the Work row put one record. */
  lemma {:induction false} WriteKeepsTables(records: map<WorkId, Record>, work: map<WorkId, Work>, attempts: map<AttemptKey, Attempt>,
                         lastRow: nat, w: Work, n: int, a: Attempt)
    requires TablesOk(records, work, attempts, lastRow)
    requires w.id in work && w.rowid == work[w.id].rowid
    ensures TablesOk(records[w.id := Record(w, records[w.id].rows[n := a])], work[w.id := w],
                     attempts[(w.id, n) := a], lastRow)
  {
    var id := w.id;
    AttemptWriteKeepsTables(records, work, attempts, lastRow, id, n, a);
    var between := records[id := Record(work[id], records[id].rows[n := a])];
    WorkUpdateKeepsTables(between, work, attempts[(id, n) := a], lastRow, w);
    hide TablesOk;
    assert between[id := Record(w, between[id].rows)] == records[id := Record(w, records[id].rows[n := a])];
  }

  /** The same for a guarded attempt update, which may write nothing. */
  lemma {:induction false} FinishKeepsTables(records: map<WorkId, Record>, work: map<WorkId, Work>, attempts: map<AttemptKey, Attempt>,
                          lastRow: nat, w: Work, n: int, state: AttemptState, text: Diagnosis, now: int)
    requires TablesOk(records, work, attempts, lastRow)
    requires w.id in work && w.rowid == work[w.id].rowid
    ensures TablesOk(records[w.id := Record(w, EndRow(records[w.id].rows, n, state, text, now))], work[w.id := w],
                     EndKey(attempts, w.id, n, state, text, now), lastRow)
  {
    LookUp(records, work, attempts, lastRow, w.id, n);
    hide TablesOk;
    if (w.id, n) in attempts && attempts[(w.id, n)].state.Active? {
      WriteKeepsTables(records, work, attempts, lastRow, w, n,
                       attempts[(w.id, n)].(state := state, endedAt := Some(now), technicalFailure := text));
    } else {
      WorkUpdateKeepsTables(records, work, attempts, lastRow, w);
    }
  }

  lemma {:induction false} ExpireKeepsTables(records: map<WorkId, Record>, work: map<WorkId, Work>, attempts: map<AttemptKey, Attempt>,
                          lastRow: nat, now: int)
    requires TablesOk(records, work, attempts, lastRow)
    ensures TablesOk(Expire(Db(records, lastRow), now).records, ExpireRows(work, now), attempts, lastRow)
  {
    var after, rows := Expire(Db(records, lastRow), now).records, ExpireRows(work, now);
    forall id | id in after
      ensures after[id].work == rows[id] && after[id].rows == records[id].rows && rows[id].rowid == work[id].rowid
    {
    }
  }

  /** `UPDATE work SET state = 'FAILED' WHERE state = 'QUEUED' AND deadline_ms <= now` */
  function ExpireRows(work: map<WorkId, Work>, now: int): map<WorkId, Work> {
    map id | id in work ::
      if work[id].state.Queued? && work[id].request.deadline.Some? && work[id].request.deadline.value <= now
      then work[id].(state := Failed, technicalFailure := DeadlineBeforeDispatch) else work[id]
  }

  ghost predicate Listed(rows: seq<Work>, id: WorkId) {
    exists i :: 0 <= i < |rows| && rows[i].id == id
  }

  lemma {:induction false} ListedAppend(rows: seq<Work>, w: Work)
    ensures Listed(rows + [w], w.id)
    ensures forall id :: Listed(rows, id) ==> Listed(rows + [w], id)
  {
    assert (rows + [w])[|rows|] == w;
    forall id | Listed(rows, id)
      ensures Listed(rows + [w], id)
    {
      var i :| 0 <= i < |rows| && rows[i].id == id;
      assert (rows + [w])[i].id == id;
    }
  }

  class WorkStore {
    var work: map<WorkId, Work>
    var attempts: map<AttemptKey, Attempt>
    var lastRow: nat
    ghost var records: map<WorkId, Record>

    ghost predicate Valid()
      reads this
    {
      TablesOk(records, work, attempts, lastRow)
    }

    ghost function View(): Db
      reads this
    {
      Db(records, lastRow)
    }

    constructor ()
      ensures Valid() && View() == EMPTY_DB
    {
      work, attempts, lastRow, records := map[], map[], 0, map[];
    }

    method Submit(w: Work) returns (inserted: bool)
      requires Valid()
      modifies this
      ensures Valid() && View() == StoreModel.Submit(old(View()), w)
      ensures inserted <==> w.id !in old(View()).records
    {
      if w.id in work {
        return false;
      }
      var row := w.(rowid := lastRow + 1, attemptCount := 0, acknowledged := false, cancelRequested := false,
                    selectedEngine := [], selectedModel := [], technicalFailure := Empty);
      InsertKeepsTables(records, work, attempts, lastRow, row);
      lastRow := lastRow + 1;
      work := work[w.id := row];
      records := records[w.id := Record(row, map[])];
      return true;
    }

    method Find(id: WorkId) returns (found: Option<Work>)
      requires Valid()
      ensures found.Some? <==> id in View().records
      ensures found.Some? ==> found.value == View().records[id].work
    {
      found := if id in work then Some(work[id]) else None;
    }

    /** The scheduler's query: a scan of the table that keeps the best row seen. */
    method NextEligible(now: int) returns (next: Option<Work>)
      requires Valid()
      ensures next.None? <==> NoneEligible(View(), now)
      ensures next.Some? ==> IsNext(View(), now, next.value.id) && View().records[next.value.id].work == next.value
      ensures next.Some? ==> ComesFirst(View(), now, next.value.id)
    {
      next := None;
      var rest := work.Keys;
      while rest != {}
        invariant rest <= work.Keys
        invariant next.None? ==> forall id :: id in work && id !in rest ==> !Eligible(work[id], now)
        invariant next.Some? ==>
                    && next.value.id in work && work[next.value.id] == next.value && Eligible(next.value, now)
                    && forall id :: id in work && id !in rest && id != next.value.id && Eligible(work[id], now) ==>
                                      Before(next.value, work[id])
        invariant next.Some? ==> next.value.id !in rest
        decreases rest
      {
        var id :| id in rest;
        rest := rest - {id};
        assert View().records[id].work == work[id];
        if Eligible(work[id], now) && (next.None? || Before(work[id], next.value)) {
          next := Some(work[id]);
        }
      }
      if next.Some? {
        assert Eligible(View().records[next.value.id].work, now);
        NextComesFirst(View(), now, next.value.id);
      }
    }

    method ExpireQueuedDeadlines(now: int)
      requires Valid()
      modifies this
      ensures Valid() && View() == Expire(old(View()), now)
      ensures SweptAs(old(View()), View(), now)
    {
      ExpireMeaning(View(), now);
      ExpireKeepsTables(records, work, attempts, lastRow, now);
      work := ExpireRows(work, now);
      records := Expire(View(), now).records;
    }

    method FailQueued(id: WorkId, text: Diagnosis)
      requires Valid()
      modifies this
      ensures Valid() && View() == Reject(old(View()), id, text)
    {
      LookUp(records, work, attempts, lastRow, id, 0);
      hide TablesOk;
      if id in work && work[id].state.Queued? {
        UpdateRow(work[id].(state := Failed, technicalFailure := text));
      }
    }

    /** One transaction: read the row, mark it running and insert the attempt; a key violation rolls it all back. */
    method BeginAttempt(id: WorkId, engine: Bytes, model: Bytes, now: int) returns (r: Begin)
      requires Valid()
      modifies this
      ensures Valid() && View() == StoreModel.BeginAttempt(old(View()), id, engine, model, now)
      ensures r == BeginResult(old(View()), id)
    {
      r := Lost;
      if id in work && work[id].state.Queued? && !work[id].cancelRequested {
        var n := work[id].attemptCount + 1;
        LookUp(records, work, attempts, lastRow, id, n);
        hide TablesOk;
        if (id, n) in attempts {
          r := KeyConflict;
        } else {
          r := Began(n);
          var w := work[id].(state := Running, attemptCount := n, selectedEngine := engine, selectedModel := model,
                             technicalFailure := Empty);
          var a := Attempt(engine, model, now, None, Active, Empty);
          WriteKeepsTables(records, work, attempts, lastRow, w, n, a);
          work := work[id := w];
          attempts := attempts[(id, n) := a];
          records := records[id := Record(w, records[id].rows[n := a])];
        }
      } else {
        LookUp(records, work, attempts, lastRow, id, 0);
      }
    }

    method FinishSuccess(id: WorkId, n: int, now: int)
      requires Valid()
      modifies this
      ensures Valid() && View() == StoreModel.FinishSuccess(old(View()), id, n, now)
    {
      LookUp(records, work, attempts, lastRow, id, n);
      hide TablesOk;
      if id in work {
        var w := if work[id].state.Running? then work[id].(state := Succeeded, technicalFailure := Empty) else work[id];
        FinishKeepsTables(records, work, attempts, lastRow, w, n, Completed, Empty, now);
        attempts := EndKey(attempts, id, n, Completed, Empty, now);
        work := work[id := w];
        records := records[id := Record(w, EndRow(records[id].rows, n, Completed, Empty, now))];
      }
    }

    method FinishCancelled(id: WorkId, n: int, now: int)
      requires Valid()
      modifies this
      ensures Valid() && View() == StoreModel.FinishCancelled(old(View()), id, n, now)
    {
      LookUp(records, work, attempts, lastRow, id, n);
      hide TablesOk;
      if id in work {
        var w := if work[id].state.Running? then work[id].(state := Cancelled, technicalFailure := CancelledOnRequest)
                 else work[id];
        FinishKeepsTables(records, work, attempts, lastRow, w, n, Withdrawn, CancelledOnRequest, now);
        attempts := EndKey(attempts, id, n, Withdrawn, CancelledOnRequest, now);
        work := work[id := w];
        records := records[id := Record(w, EndRow(records[id].rows, n, Withdrawn, CancelledOnRequest, now))];
      }
    }

    /** The row a failure leaves: cancelled, queued again, or failed. */
    static method SettledRow(w: Work, text: Diagnosis, cancelText: Diagnosis, now: int) returns (settled: Work)
      ensures settled == AfterFailure(w, text, cancelText, now)
      ensures settled.id == w.id && settled.rowid == w.rowid
    {
      if w.cancelRequested {
        settled := w.(state := Cancelled, technicalFailure := cancelText);
      } else if RetryPermitted(w, now) {
        settled := w.(state := Queued, nextAttemptAt := now + w.request.retryDelay, technicalFailure := text,
                      selectedEngine := [], selectedModel := []);
      } else {
        settled := w.(state := Failed, technicalFailure := text);
      }
    }

    /** The transaction shared by a failed attempt and by restart recovery: end the attempt, then settle the Work. */
    method SettleFailure(w: Work, n: int, state: AttemptState, text: Diagnosis, cancelText: Diagnosis, now: int)
      requires Valid() && w.id in work && work[w.id] == w
      modifies this`work, this`attempts, this`records
      ensures Valid()
      ensures records == old(records)[w.id := Record(AfterFailure(w, text, cancelText, now),
                                                     EndRow(old(records)[w.id].rows, n, state, text, now))]
    {
      LookUp(records, work, attempts, lastRow, w.id, n);
      hide TablesOk;
      var settled := SettledRow(w, text, cancelText, now);
      hide AfterFailure;
      FinishKeepsTables(records, work, attempts, lastRow, settled, n, state, text, now);
      attempts := EndKey(attempts, w.id, n, state, text, now);
      work := work[w.id := settled];
      records := records[w.id := Record(settled, EndRow(records[w.id].rows, n, state, text, now))];
    }

    /** Refuses any attempt state but FAILED and TIMED_OUT before it touches the tables. */
    method FinishRetryableFailure(id: WorkId, n: int, state: AttemptState, text: Diagnosis, now: int) returns (accepted: bool)
      requires Valid()
      modifies this
      ensures Valid() && (accepted <==> state.Faulted? || state.TimedOut?)
      ensures View() == if accepted then FinishFailure(old(View()), id, n, state, text, now) else old(View())
    {
      LookUp(records, work, attempts, lastRow, id, n);
      hide TablesOk;
      if !state.Faulted? && !state.TimedOut? {
        return false;
      }
      accepted := true;
      if id in work && work[id].state.Running? {
        SettleFailure(work[id], n, state, text, CancelledOnRequest, now);
      }
    }

    /**
     Restart recovery: collect the running rows, then settle them one by one. The effect is one pointwise map over
     the records, whatever the order in which the rows were collected.
     */
    method RecoverInterrupted(now: int)
      requires Valid()
      modifies this
      ensures Valid() && View() == Recover(old(View()), now)
    {
      hide TablesOk;
      var running := CollectRunning();
      ghost var before := View();
      for i := 0 to |running|
        invariant Valid() && lastRow == before.lastRow
        invariant records.Keys == before.records.Keys
        invariant forall j :: 0 <= j < |running| ==>
                                records[running[j].id] ==
                                  if j < i then RecoverRecord(before.records[running[j].id], now)
                                  else before.records[running[j].id]
        invariant forall id :: id in before.records && !before.records[id].work.state.Running? ==>
                                 records[id] == before.records[id]
      {
        var w := running[i];
        assert records[w.id] == before.records[w.id] && before.records[w.id].work == w;
        LookUp(records, work, attempts, lastRow, w.id, w.attemptCount);
        SettleFailure(w, w.attemptCount, Interrupted, KernelRestarted, CancelledBeforeRecovery, now);
      }
      assert View().records == Recover(before, now).records by {
        forall id | id in before.records
          ensures records[id] == RecoverRecord(before.records[id], now)
        {
          if before.records[id].work.state.Running? {
            var j :| 0 <= j < |running| && running[j].id == id;
            assert records[running[j].id] == RecoverRecord(before.records[running[j].id], now);
          }
        }
      }
    }

    /** `SELECT ... WHERE state = 'RUNNING'`, once each, in no particular order. */
    method CollectRunning() returns (running: seq<Work>)
      requires Valid()
      ensures forall i :: 0 <= i < |running| ==>
                            && running[i].id in View().records
                            && View().records[running[i].id].work == running[i] && running[i].state.Running?
      ensures forall i, j :: 0 <= i < j < |running| ==> running[i].id != running[j].id
      ensures forall id :: id in View().records && View().records[id].work.state.Running? ==>
                             Listed(running, id)
    {
      hide Listed;
      running := [];
      var rest := work.Keys;
      while rest != {}
        invariant rest <= work.Keys
        invariant forall i :: 0 <= i < |running| ==>
                                running[i].id in work && running[i].id !in rest && work[running[i].id] == running[i] &&
                                running[i].state.Running?
        invariant forall i, j :: 0 <= i < j < |running| ==> running[i].id != running[j].id
        invariant forall id :: id in work && id !in rest && work[id].state.Running? ==>
                                 Listed(running, id)
        decreases rest
      {
        var id :| id in rest;
        rest := rest - {id};
        if work[id].state.Running? {
          ListedAppend(running, work[id]);
          running := running + [work[id]];
        }
      }
    }

    /** The guarded update of one Work row. */
    method UpdateRow(w: Work)
      requires Valid() && w.id in work && w.rowid == work[w.id].rowid
      modifies this`work, this`records
      ensures Valid()
      ensures work == old(work)[w.id := w]
      ensures records == old(records)[w.id := Record(w, old(records)[w.id].rows)]
    {
      WorkUpdateKeepsTables(records, work, attempts, lastRow, w);
      work := work[w.id := w];
      records := records[w.id := Record(w, records[w.id].rows)];
    }

    method Cancel(id: WorkId) returns (reported: Option<WorkState>)
      requires Valid()
      modifies this
      ensures Valid() && View() == StoreModel.Cancel(old(View()), id)
      ensures reported.None? <==> id !in old(View()).records
      ensures reported.Some? ==> reported.value == View().records[id].work.state
      ensures reported.Some? ==> CancelledAs(old(View()).records[id], View().records[id])
    {
      CancelMeaning(View(), id);
      if id !in work {
        return None;
      }
      var state := work[id].state;
      if state.Queued? {
        UpdateRow(work[id].(state := Cancelled, cancelRequested := true, technicalFailure := CancelledOnRequest));
        return Some(Cancelled);
      }
      if state.Running? {
        UpdateRow(work[id].(cancelRequested := true));
        return Some(Running);
      }
      return Some(state);
    }

    method CancelRequested(id: WorkId) returns (r: bool)
      requires Valid()
      ensures r <==> StoreModel.CancelRequested(View(), id)
    {
      r := id in work && work[id].cancelRequested;
    }

    method Acknowledge(id: WorkId) returns (changed: bool)
      requires Valid()
      modifies this
      ensures Valid() && View() == StoreModel.Acknowledge(old(View()), id)
      ensures changed <==> id in old(View()).records && Acknowledgeable(old(View()).records[id])
    {
      changed := id in work && work[id].state.Succeeded? && !work[id].acknowledged;
      if changed {
        UpdateRow(work[id].(acknowledged := true));
      }
    }
  }
}
