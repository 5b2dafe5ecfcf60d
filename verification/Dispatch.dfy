/** Which Work the scheduler dispatches, with which engine, and when it can wait. */
module Dispatch {
  import opened Basics
  import opened StoreModel
  import opened Statements
  import opened ResourceModel
  import opened Selection
  import opened RecordInvariant
  import opened System
  import opened Invariant
  import opened Preservation
  import opened Effects
  import opened Movements
  import opened Lifecycle

  // The order

  /** What one scan makes of the table. */
  ghost predicate ScannedAs(db: Db, now: int, q: Scheduler) {
    && (q.Idle? <==> forall id :: id in db.records ==> !MayStart(db.records[id].work, now))
    && (q.Idle? || q.Picked?)
    && (q.Picked? ==>
          && q.now == now && ComesFirst(db, now, q.work.id)
          && q.work.id in db.records && q.work == db.records[q.work.id].work)
    && (forall id :: ComesFirst(db, now, id) ==> q.Picked? && q.work.id == id)
  }

  lemma {:induction false} ScanPlace(s: Sys)
    requires s.sched.Swept? && forall id :: NextEligible(s.db, s.sched.now) == Some(id) ==> id in s.db.records
    ensures var next := NextEligible(s.db, s.sched.now);
            Step(s, SchedPick).sched == if next.None? then Idle else Picked(s.sched.now, s.db.records[next.value].work)
  {
    hide NextEligible;
  }

  lemma {:induction false} ScanDecides(s: Sys)
    requires DbOk(s.db) && s.sched.Swept?
    ensures ScannedAs(s.db, s.sched.now, Step(s, SchedPick).sched)
  {
    ScanMeaning(s.db, s.sched.now);
    IdsAgree(s);
    FirstIsStored(s.db, s.sched.now);
    hide NextEligible, DbOk, RowidsDistinct, ComesFirst, MayStart;
    ScanPlace(s);
    hide Step;
  }

  /**
   A scan picks the one Work that comes first among those that may start, and picks nothing only when none may; a Work
   that comes first is picked.
   */
  lemma {:induction false} PickIsHead(actions: seq<Action>)
    requires Run(INIT, actions).sched.Swept?
    ensures var s := Run(INIT, actions); ScannedAs(s.db, s.sched.now, Step(s, SchedPick).sched)
  {
    Reachable(actions);
    hide Run, Step, ScannedAs;
    ScanDecides(Run(INIT, actions));
  }

  lemma {:induction false} IdsAgree(s: Sys)
    requires DbOk(s.db)
    ensures forall id :: id in s.db.records ==> s.db.records[id].work.id == id
  {
    forall id | id in s.db.records
      ensures s.db.records[id].work.id == id
    {
      assert RecordOk(id, s.db.records[id]);
    }
  }

  lemma {:induction false} FirstIsStored(db: Db, now: int)
    ensures forall id :: ComesFirst(db, now, id) ==> id in db.records && MayStart(db.records[id].work, now)
  {
  }

  /** The Work that the scheduler is about to dispatch. */
  predicate Dispatching(sched: Scheduler, id: WorkId) {
    (sched.Picked? || sched.Admitted? || sched.Begun?) && sched.work.id == id
  }

  /** The scheduler's reading of the clock is not before `since`. */
  predicate ScanSince(sched: Scheduler, since: int) {
    match sched
    case Scanning(now) => since <= now
    case Swept(now) => since <= now
    case _ => true
  }

  /** Work `a` still waits where it was, ready since `since`, and the scheduler has not turned to `b`. */
  ghost predicate Waiting(s: Sys, since: int, a: WorkId, ra: Record, b: WorkId, count: int) {
    && Inv(s) && since <= s.clock
    && a in s.db.records && s.db.records[a] == ra && Eligible(ra.work, since)
    && b in s.db.records && Before(ra.work, s.db.records[b].work)
    && ScanSince(s.sched, since)
    && !Dispatching(s.sched, b)
    && s.db.records[b].work.attemptCount == count
  }

  lemma {:induction false} QueuedChanges(id: WorkId, r: Record, e: Effect, clock: int)
    requires r.work.state.Queued?
    requires !e.SucceedEffect? && !e.WithdrawEffect? && !e.FailEffect? && !e.AcknowledgeEffect?
    ensures Apply(r, e, clock) == r || Apply(r, e, clock).work.state != r.work.state
  {
  }

  /** A queued Work keeps its record until it leaves the queue. */
  lemma {:induction false} QueuedStep(s: Sys, a: Action, id: WorkId)
    requires Inv(s) && id in s.db.records && s.db.records[id].work.state.Queued?
    ensures id in Step(s, a).db.records
    ensures Step(s, a).db.records[id] == s.db.records[id] || Step(s, a).db.records[id].work.state != s.db.records[id].work.state
  {
    var e := StepEffect(s, a, id);
    hide Step, DbOk, Exclusive, SchedOk, OwnedOk, HoldersOk, CountersOk, FilesOk, ClientOk, Apply;
    QueuedCause(s, a, id, e);
    QueuedChanges(id, s.db.records[id], e, s.clock);
  }

  lemma {:induction false} QueuedCause(s: Sys, a: Action, id: WorkId, e: Effect)
    requires TasksOk(s.stop, s.db, s.outputs, s.results, s.tasks)
    requires id in s.db.records && s.db.records[id].work.state.Queued? && Cause(s, a, id, e)
    ensures !e.SucceedEffect? && !e.WithdrawEffect? && !e.FailEffect? && !e.AcknowledgeEffect?
  {
    hide PhaseOk;
  }

  /** A Work gets its next attempt only from the scheduler's turn to it. */
  lemma {:induction false} AttemptStep(s: Sys, a: Action, id: WorkId)
    requires Inv(s) && id in s.db.records && !Dispatching(s.sched, id)
    ensures id in Step(s, a).db.records
    ensures Step(s, a).db.records[id].work.attemptCount == s.db.records[id].work.attemptCount
    ensures Step(s, a).db.records[id].work.request == s.db.records[id].work.request
    ensures Step(s, a).db.records[id].work.rowid == s.db.records[id].work.rowid
  {
    StepKeeps(s, a);
    var e := StepEffect(s, a, id);
    hide Step, Inv;
    assert Progress(s.db.records[id], Step(s, a).db.records[id]);
    SameCount(s.db.records[id], e, s.clock);
  }

  lemma {:induction false} SameCount(r: Record, e: Effect, clock: int)
    ensures !e.BeginEffect? ==> Apply(r, e, clock).work.attemptCount == r.work.attemptCount
  {
  }

  lemma {:induction false} BeforeIsStrict(a: Work, b: Work)
    ensures !(Before(a, b) && Before(b, a))
  {
  }

  /** A scan at or after `since` does not pick a later Work while an earlier one waits. */
  lemma {:induction false} PicksNoLater(s: Sys, a: WorkId, b: WorkId, since: int)
    requires DbOk(s.db) && s.sched.Swept? && since <= s.sched.now
    requires a in s.db.records && b in s.db.records && a != b
    requires Eligible(s.db.records[a].work, since) && Before(s.db.records[a].work, s.db.records[b].work)
    ensures NextEligible(s.db, s.sched.now) != Some(b)
  {
    NextEligibleMeaning(s.db, s.sched.now);
    hide NextEligible, DbOk;
    BeforeIsStrict(s.db.records[a].work, s.db.records[b].work);
    hide Before;
  }

  lemma {:induction false} WaitingStep(s: Sys, act: Action, since: int, a: WorkId, ra: Record, b: WorkId, count: int)
    requires Waiting(s, since, a, ra, b, count) && (act.ClockTo? ==> s.clock <= act.time)
    ensures Inv(Step(s, act)) && a in Step(s, act).db.records
    ensures Waiting(Step(s, act), since, a, ra, b, count) || Step(s, act).db.records[a].work.state != ra.work.state
  {
    StepKeeps(s, act);
    QueuedStep(s, act, a);
    AttemptStep(s, act, b);
    SchedSteps(s, act);
    var t := Step(s, act);
    hide Step;
    WaitingSched(s, t.sched, since, a, b);
    hide Inv, Eligible, SchedStep, Dispatching, ScanSince;
    BeforeIsStable(ra.work, s.db.records[b].work, t.db.records[b].work);
    hide Before;
  }

  lemma {:induction false} BeforeIsStable(a: Work, b: Work, c: Work)
    requires Before(a, b) && c.request == b.request && c.rowid == b.rowid
    ensures Before(a, c)
  {
  }

  /** The scheduler's next place is still before any turn to `b`. */
  lemma {:induction false} WaitingSched(s: Sys, q: Scheduler, since: int, a: WorkId, b: WorkId)
    requires Inv(s) && SchedStep(s, q) && since <= s.clock
    requires a in s.db.records && b in s.db.records && Eligible(s.db.records[a].work, since)
    requires Before(s.db.records[a].work, s.db.records[b].work)
    requires ScanSince(s.sched, since) && !Dispatching(s.sched, b)
    ensures ScanSince(q, since) && !Dispatching(q, b)
  {
    hide TasksOk, Exclusive, SchedOk, OwnedOk, HoldersOk, CountersOk, FilesOk, ClientOk, Select;
    if s.sched.Swept? {
      NextEligibleKeys(s);
      BeforeIsStrict(s.db.records[a].work, s.db.records[b].work);
      hide Before;
      PicksNoLater(s, a, b, since);
    }
    hide DbOk, Eligible, NextEligible;
  }

  /** `id` has left the queue since `r` was its record: it has made progress that cannot be undone. */
  predicate LeftQueue(s: Sys, id: WorkId, r: Record) {
    id in s.db.records && Measure(s.db.records[id].work) < Measure(r.work)
  }

  lemma {:induction false} StaysLeft(s: Sys, actions: seq<Action>, id: WorkId, r: Record)
    requires Inv(s) && LeftQueue(s, id, r)
    ensures LeftQueue(Run(s, actions), id, r)
    decreases |actions|
  {
    if actions != [] {
      StepKeeps(s, actions[0]);
      assert Progress(s.db.records[id], Step(s, actions[0]).db.records[id]);
      hide Step, Inv;
      StaysLeft(Step(s, actions[0]), actions[1..], id, r);
    }
  }

  lemma {:induction false} WaitingRun(s: Sys, actions: seq<Action>, since: int, a: WorkId, ra: Record, b: WorkId, count: int)
    requires Waiting(s, since, a, ra, b, count) && Monotone(s, actions)
    ensures Waiting(Run(s, actions), since, a, ra, b, count) || LeftQueue(Run(s, actions), a, ra)
    decreases |actions|
  {
    if actions != [] {
      var t := Step(s, actions[0]);
      WaitingStep(s, actions[0], since, a, ra, b, count);
      if Waiting(t, since, a, ra, b, count) {
        hide Waiting, Step;
        WaitingRun(t, actions[1..], since, a, ra, b, count);
      } else {
        StepKeeps(s, actions[0]);
        assert Progress(ra, t.db.records[a]);
        hide Step, Inv;
        StaysLeft(t, actions[1..], a, ra);
      }
    }
  }

  /**
   The scheduler never overtakes. Let Work `a` have been ready since `since` and precede Work `b`, and let the scheduler
   neither be at `b` nor in a scan that began before `since`. Then in any continuation with a forward clock no attempt of
   `b` starts before `a` has left the queue; neither waiting for resources nor a crash lets `b` pass.
   */
  lemma {:induction false} NeverOvertakes(s: Sys, actions: seq<Action>, a: WorkId, b: WorkId, since: int)
    requires Inv(s) && Monotone(s, actions) && since <= s.clock
    requires a in s.db.records && b in s.db.records
    requires Eligible(s.db.records[a].work, since) && Before(s.db.records[a].work, s.db.records[b].work)
    requires !Dispatching(s.sched, b) && ScanSince(s.sched, since)
    ensures b in Run(s, actions).db.records
    ensures Run(s, actions).db.records[b].work.attemptCount != s.db.records[b].work.attemptCount ==>
              LeftQueue(Run(s, actions), a, s.db.records[a])
  {
    WaitingRun(s, actions, since, a, s.db.records[a], b, s.db.records[b].work.attemptCount);
    ChangesFrom(s, actions, b);
    hide Run, Inv;
  }

  // Works that are submitted later

  /** Work `a` still waits where it was, ready since `since`, and `b` has not been submitted. */
  ghost predicate Alone(s: Sys, since: int, a: WorkId, ra: Record, b: WorkId) {
    && Inv(s) && since <= s.clock
    && a in s.db.records && s.db.records[a] == ra && Eligible(ra.work, since)
    && b !in s.db.records
    && ScanSince(s.sched, since)
  }

  /** A request that a Work with the request `q` may not overtake when it is submitted later. */
  predicate NoEarlier(r: Request, q: Request) {
    MorePressing(r.urgency, q.urgency) || (r.urgency == q.urgency && r.createdAt <= q.createdAt)
  }

  lemma {:induction false} InsertedLast(s: Sys, act: Action, a: WorkId, b: WorkId)
    requires Inv(s) && a in s.db.records && b !in s.db.records && b in Step(s, act).db.records
    requires NoEarlier(s.db.records[a].work.request, Step(s, act).db.records[b].work.request)
    ensures Before(s.db.records[a].work, Step(s, act).db.records[b].work)
    ensures Step(s, act).db.records[b].work.attemptCount == 0
  {
    StepInserts(s, act, b);
    hide TasksOk, Exclusive, SchedOk, OwnedOk, HoldersOk, CountersOk, FilesOk, RecordOk;
    assert s.db.records[a].work.rowid <= s.db.lastRow;
  }

  lemma {:induction false} NotYetDispatching(s: Sys, b: WorkId)
    requires Inv(s) && b !in s.db.records
    ensures !Dispatching(s.sched, b)
  {
    hide DbOk, TasksOk, Exclusive, OwnedOk, HoldersOk, CountersOk, FilesOk, ClientOk, Eligible, Select;
  }

  /** While `b` is not there, its scheduler place is nowhere; once it is there, it waits behind `a`. */
  lemma {:induction false} AloneStep(s: Sys, act: Action, since: int, a: WorkId, ra: Record, b: WorkId)
    requires Alone(s, since, a, ra, b) && (act.ClockTo? ==> s.clock <= act.time)
    ensures var t := Step(s, act);
            && Inv(t) && a in t.db.records
            && (|| t.db.records[a].work.state != ra.work.state
                || Alone(t, since, a, ra, b)
                || (b in t.db.records && (NoEarlier(ra.work.request, t.db.records[b].work.request) ==>
                                            Waiting(t, since, a, ra, b, 0))))
  {
    StepKeeps(s, act);
    QueuedStep(s, act, a);
    SchedSteps(s, act);
    NotYetDispatching(s, b);
    var t := Step(s, act);
    if b !in t.db.records {
      hide Step, Inv, Eligible, SchedStep;
      AloneSched(s, t.sched, since);
    } else {
      StepInserts(s, act, b);
      InsertsKeepSched(s);
      if NoEarlier(ra.work.request, t.db.records[b].work.request) {
        InsertedLast(s, act, a, b);
      }
      hide Step, Inv, Eligible, SchedStep, NoEarlier, Before, Dispatching, ScanSince;
    }
  }

  lemma {:induction false} InsertsKeepSched(s: Sys)
    ensures Step(s, InsertWork).sched == s.sched
  {
    hide Submit;
  }

  lemma {:induction false} AloneSched(s: Sys, q: Scheduler, since: int)
    requires SchedStep(s, q) && since <= s.clock && ScanSince(s.sched, since)
    ensures ScanSince(q, since)
  {
    hide NextEligible, Select;
  }

  lemma {:induction false} AloneRun(s: Sys, actions: seq<Action>, since: int, a: WorkId, ra: Record, b: WorkId)
    requires Alone(s, since, a, ra, b) && Monotone(s, actions)
    ensures var t := Run(s, actions);
            || LeftQueue(t, a, ra)
            || Alone(t, since, a, ra, b)
            || (b in t.db.records && (NoEarlier(ra.work.request, t.db.records[b].work.request) ==>
                                        Waiting(t, since, a, ra, b, 0)))
    decreases |actions|
  {
    if actions != [] {
      var t := Step(s, actions[0]);
      AloneStep(s, actions[0], since, a, ra, b);
      if t.db.records[a].work.state != ra.work.state {
        StepKeeps(s, actions[0]);
        assert Progress(ra, t.db.records[a]);
        hide Step, Inv;
        StaysLeft(t, actions[1..], a, ra);
      } else if Alone(t, since, a, ra, b) {
        hide Alone, Step, Inv, Waiting, LeftQueue;
        AloneRun(t, actions[1..], since, a, ra, b);
      } else {
        hide Alone, Step, LeftQueue, NoEarlier;
        ChangesFrom(t, actions[1..], b);
        if NoEarlier(ra.work.request, t.db.records[b].work.request) {
          WaitingRun(t, actions[1..], since, a, ra, b, 0);
        }
      }
    }
  }

  /**
   A Work that is submitted later does not overtake either: while `a` waits, ready since `since`, no Work of the same or
   of a lower urgency that is inserted after it, and was created no earlier, gets its first attempt before `a` has left
   the queue.
   */
  lemma {:induction false} LaterDoesNotOvertake(s: Sys, actions: seq<Action>, a: WorkId, b: WorkId, since: int)
    requires Inv(s) && Monotone(s, actions) && since <= s.clock
    requires a in s.db.records && Eligible(s.db.records[a].work, since)
    requires b !in s.db.records && b in Run(s, actions).db.records
    requires NoEarlier(s.db.records[a].work.request, Run(s, actions).db.records[b].work.request)
    requires ScanSince(s.sched, since)
    ensures Run(s, actions).db.records[b].work.attemptCount != 0 ==> LeftQueue(Run(s, actions), a, s.db.records[a])
  {
    AloneRun(s, actions, since, a, s.db.records[a], b);
    hide Run, Inv, Eligible, NoEarlier, LeftQueue, ScanSince;
  }

  /** Creation times are in the past, and a submission under way is not older than any stored Work. */
  ghost predicate CreationOk(s: Sys) {
    && (forall id :: id in s.db.records ==> s.db.records[id].work.request.createdAt <= s.clock)
    && (s.client.InputWritten? ==>
          && s.client.work.request.createdAt <= s.clock
          && forall id :: id in s.db.records ==>
                            s.db.records[id].work.request.createdAt <= s.client.work.request.createdAt)
  }

  /** Where the request of a stored Work comes from. */
  lemma {:induction false} RequestSource(s: Sys, act: Action, id: WorkId)
    requires Inv(s) && id in Step(s, act).db.records
    ensures var r := Step(s, act).db.records[id].work.request;
            if id in s.db.records then r == s.db.records[id].work.request
            else act.InsertWork? && s.client.InputWritten? && r == s.client.work.request
  {
    if id in s.db.records {
      StepKeeps(s, act);
      hide Step, Inv;
      assert Progress(s.db.records[id], Step(s, act).db.records[id]);
    } else {
      StepInserts(s, act, id);
    }
  }

  lemma {:induction false} InsertEnds(s: Sys)
    ensures !Step(s, InsertWork).client.InputWritten?
  {
    hide Submit;
  }

  lemma {:induction false} CreationStep(s: Sys, act: Action)
    requires Inv(s) && CreationOk(s) && (act.ClockTo? ==> s.clock <= act.time)
    ensures CreationOk(Step(s, act))
  {
    var t := Step(s, act);
    SchedSteps(s, act);
    ClientSteps(s, act);
    InsertEnds(s);
    hide Step, Inv, SchedStep;
    forall id | id in t.db.records
      ensures t.db.records[id].work.request.createdAt <= t.clock
      ensures t.client.InputWritten? ==> t.db.records[id].work.request.createdAt <= t.client.work.request.createdAt
    {
      RequestSource(s, act, id);
    }
  }

  lemma {:induction false} CreationRun(s: Sys, actions: seq<Action>)
    requires Inv(s) && CreationOk(s) && Monotone(s, actions)
    ensures CreationOk(Run(s, actions))
    decreases |actions|
  {
    if actions != [] {
      CreationStep(s, actions[0]);
      StepKeeps(s, actions[0]);
      hide Step, Inv, CreationOk;
      CreationRun(Step(s, actions[0]), actions[1..]);
    }
  }

  /** What is inserted later was created no earlier. */
  lemma {:induction false} CreatedInOrder(s: Sys, actions: seq<Action>, a: WorkId, b: WorkId)
    requires Inv(s) && CreationOk(s) && Monotone(s, actions)
    requires a in s.db.records && b !in s.db.records && b in Run(s, actions).db.records
    ensures s.db.records[a].work.request.createdAt <= Run(s, actions).db.records[b].work.request.createdAt
    decreases |actions|
  {
    var t := Step(s, actions[0]);
    StepKeeps(s, actions[0]);
    CreationStep(s, actions[0]);
    RequestSource(s, actions[0], a);
    if b in t.db.records {
      RequestSource(s, actions[0], b);
      ChangesFrom(t, actions[1..], b);
      hide Step, Inv;
    } else {
      hide Step, Inv, CreationOk;
      CreatedInOrder(t, actions[1..], a, b);
    }
  }

  /**
   First come, first served within an urgency. In any run from the start with a forward clock, let `a` be ready since
   `since` and let no scan be under way that began before. No Work of the same or of a lower urgency that is submitted
   from then on gets an attempt before `a` has left the queue.
   */
  lemma {:induction false} FirstComeFirstServed(before: seq<Action>, actions: seq<Action>, a: WorkId, b: WorkId, since: int)
    requires var s := Run(INIT, before);
             && Monotone(INIT, before) && Monotone(s, actions) && since <= s.clock && ScanSince(s.sched, since)
             && a in s.db.records && Eligible(s.db.records[a].work, since)
             && b !in s.db.records && b in Run(s, actions).db.records
             && !MorePressing(Run(s, actions).db.records[b].work.request.urgency, s.db.records[a].work.request.urgency)
    ensures var s := Run(INIT, before);
            Run(s, actions).db.records[b].work.attemptCount != 0 ==> LeftQueue(Run(s, actions), a, s.db.records[a])
  {
    Reachable(before);
    InitHolds();
    CreationRun(INIT, before);
    var s := Run(INIT, before);
    hide Run, Inv, Eligible, LeftQueue, ScanSince, CreationOk, Monotone;
    CreatedInOrder(s, actions, a, b);
    LaterDoesNotOvertake(s, actions, a, b, since);
  }

  // The engine

  /** Every attempt after the first `base` ran on the engine and model that selection chooses from the inventory. */
  ghost predicate SelectedRows(r: Record, base: int, inventory: seq<Engine>) {
    forall n :: n in r.rows && n > base ==> SelectedRow(r.work.request, r.rows[n], inventory)
  }

  predicate SelectedRow(request: Request, row: Attempt, inventory: seq<Engine>) {
    var c := Select(request, inventory);
    c.Chosen? && row.engine == c.engine.id && row.model == c.model
  }

  lemma {:induction false} EffectSelected(r: Record, e: Effect, clock: int, base: int, inventory: seq<Engine>)
    requires SelectedRows(r, base, inventory)
    requires e.BeginEffect? ==>
               SelectedRow(r.work.request, Attempt(e.engine, e.model, clock, None, Active, Empty), inventory)
    ensures SelectedRows(Apply(r, e, clock), base, inventory)
  {
    hide Select;
  }

  lemma {:induction false} BeginSelected(s: Sys, a: Action, id: WorkId, e: Effect)
    requires SchedOk(s.sched, s.db, s.tasks, s.inventory)
    requires id in s.db.records && e.BeginEffect? && Cause(s, a, id, e)
    ensures SelectedRow(s.db.records[id].work.request, Attempt(e.engine, e.model, s.clock, None, Active, Empty), s.inventory)
  {
    hide Select, Eligible;
  }

  lemma {:induction false} SelectedStep(s: Sys, a: Action, id: WorkId, base: int)
    requires Inv(s) && !a.Start? && base >= 0
    requires id in s.db.records ==> SelectedRows(s.db.records[id], base, s.inventory)
    ensures id in Step(s, a).db.records ==> SelectedRows(Step(s, a).db.records[id], base, s.inventory)
  {
    if id in s.db.records {
      var e := StepEffect(s, a, id);
      hide Step, DbOk, TasksOk, Exclusive, OwnedOk, HoldersOk, CountersOk, FilesOk, ClientOk, SelectedRows, SelectedRow,
           SchedOk, Apply, Cause;
      if e.BeginEffect? {
        BeginSelected(s, a, id, e);
      }
      EffectSelected(s.db.records[id], e, s.clock, base, s.inventory);
    } else if id in Step(s, a).db.records {
      StepInserts(s, a, id);
      hide Step, Inv;
    }
  }

  /**
   Within one lifetime of the process, retries included, all attempts of a Work that start run on the same engine and
   model: the ones that selection chooses for it.
   */
  lemma {:induction false} SameEngineWithinLifetime(s: Sys, actions: seq<Action>, id: WorkId, base: int)
    requires Inv(s) && base >= 0
    requires forall i :: 0 <= i < |actions| ==> !actions[i].Start?
    requires id in s.db.records ==> s.db.records[id].work.attemptCount <= base
    ensures id in Run(s, actions).db.records ==> SelectedRows(Run(s, actions).db.records[id], base, s.inventory)
  {
    if id in s.db.records {
      assert RecordOk(id, s.db.records[id]);
    }
    SelectedRun(s, actions, id, base);
  }

  lemma {:induction false} SelectedRun(s: Sys, actions: seq<Action>, id: WorkId, base: int)
    requires Inv(s) && base >= 0
    requires forall i :: 0 <= i < |actions| ==> !actions[i].Start?
    requires id in s.db.records ==> SelectedRows(s.db.records[id], base, s.inventory)
    ensures id in Run(s, actions).db.records ==> SelectedRows(Run(s, actions).db.records[id], base, s.inventory)
    decreases |actions|
  {
    hide Inv, SelectedRows;
    if actions != [] {
      StepKeeps(s, actions[0]);
      SelectedStep(s, actions[0], id, base);
      ConfigurationSteps(s, actions[0]);
      hide Step;
      SelectedRun(Step(s, actions[0]), actions[1..], id, base);
    }
  }
}
