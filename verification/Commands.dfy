/** The commands of a client: what a submission, a cancel and an acknowledgement achieve, and what stays of them. */
module Commands {
  import opened Basics
  import opened StoreModel
  import opened Statements
  import opened RecordInvariant
  import opened Selection
  import opened System
  import opened Invariant
  import opened Preservation
  import opened Effects
  import opened Movements
  import opened Lifecycle
  import opened Durability
  import opened Cancellation
  import opened Dispatch

  lemma {:induction false} RunTwo(s: Sys, a: Action, b: Action)
    ensures Run(s, [a, b]) == Step(Step(s, a), b)
  {
    hide Step;
    assert [a, b][1..] == [b] && [b][1..] == [];
    assert Run(s, [a, b]) == Run(Step(s, a), [b]) == Run(Step(Step(s, a), b), []);
  }

  // Submission

  /** The Kernel takes a submission: the id is unused and the row is well formed. */
  predicate Accepts(s: Sys, w: Work) {
    && s.up && s.client.Ready?
    && w.id !in s.db.records && w.id !in s.inputs && w.id !in s.results
    && w.state.Queued? && w.nextAttemptAt == w.request.eligibleAt && w.request.createdAt == s.clock
    && w.request.maxAttempts >= 1 && w.request.retryDelay >= 0
  }

  /** An accepted submission stores its input and then its row, and nothing else changes. */
  lemma {:induction false} SubmissionTakes(s: Sys, w: Work, payload: Bytes)
    requires Accepts(s, w)
    ensures var t := Run(s, [WriteInput(w, payload), InsertWork]);
            && t == s.(inputs := s.inputs[w.id := payload], db := t.db)
            && t.db == Submit(s.db, w)
            && w.id in t.db.records && t.db.records[w.id].work.request == w.request && t.db.records[w.id].work.state.Queued?
  {
    RunTwo(s, WriteInput(w, payload), InsertWork);
    hide Run;
    assert Step(s, WriteInput(w, payload)) == s.(inputs := s.inputs[w.id := payload], client := InputWritten(w));
    SubmitMeaning(s.db, w);
  }

  datatype Submission = Submission(request: Request, payload: Bytes)

  /** The accepted submissions of a run, by id. */
  ghost function Submissions(s: Sys, actions: seq<Action>, log: map<WorkId, Submission>): map<WorkId, Submission>
    decreases |actions|
  {
    if actions == [] then log
    else
      var a := actions[0];
      Submissions(Step(s, a), actions[1..],
                  if a.WriteInput? && Accepts(s, a.work) then log[a.work.id := Submission(a.work.request, a.payload)] else log)
  }

  /** Every stored Work, and every input on disk, is what was submitted under its id. */
  ghost predicate AsSubmitted(s: Sys, log: map<WorkId, Submission>) {
    && (forall id :: id in s.db.records ==> id in log && s.db.records[id].work.request == log[id].request)
    && (forall id :: id in s.inputs ==> id in log && s.inputs[id] == log[id].payload)
    && (s.client.InputWritten? ==>
          var w := s.client.work; w.id !in s.db.records && w.id in log && w.request == log[w.id].request)
  }

  lemma {:induction false} WritesSubmitted(s: Sys, w: Work, payload: Bytes, log: map<WorkId, Submission>)
    requires AsSubmitted(s, log)
    ensures AsSubmitted(Step(s, WriteInput(w, payload)),
                        if Accepts(s, w) then log[w.id := Submission(w.request, payload)] else log)
  {
  }

  lemma {:induction false} StaysSubmitted(s: Sys, a: Action, log: map<WorkId, Submission>)
    requires Inv(s) && AsSubmitted(s, log) && !a.WriteInput?
    ensures AsSubmitted(Step(s, a), log)
  {
    hide Step, Inv;
    var t := Step(s, a);
    StepKeeps(s, a);
    ClientSteps(s, a);
    NoNewInput(s, a);
    ClientKnown(t);
    forall id | id in t.db.records
      ensures id in log && t.db.records[id].work.request == log[id].request
    {
      RequestSource(s, a, id);
      if id !in s.db.records {
        StepInserts(s, a, id);
      }
    }
  }

  lemma {:induction false} ClientKnown(s: Sys)
    requires Inv(s)
    ensures s.client.InputWritten? ==> s.client.work.id !in s.db.records
  {
  }

  lemma {:induction false} NoNewInput(s: Sys, a: Action)
    requires !a.WriteInput?
    ensures forall id :: id in Step(s, a).inputs ==> id in s.inputs && Step(s, a).inputs[id] == s.inputs[id]
  {
    if a.TaskDecide? {
      DecideDisk(s, a.task, a.outcome);
      hide DoDecide;
    } else if !a.TaskWrite? && !a.RemoveResult? && !a.RemoveInput? {
      OtherDisk(s, a);
      hide Step;
    }
  }

  lemma {:induction false} SubmittedRun(s: Sys, actions: seq<Action>, log: map<WorkId, Submission>)
    requires Inv(s) && AsSubmitted(s, log)
    ensures AsSubmitted(Run(s, actions), Submissions(s, actions, log))
    decreases |actions|
  {
    if actions != [] {
      var a := actions[0];
      StepKeeps(s, a);
      if a.WriteInput? {
        WritesSubmitted(s, a.work, a.payload, log);
      } else {
        StaysSubmitted(s, a, log);
      }
      hide Step, Inv, AsSubmitted, Accepts;
      SubmittedRun(Step(s, a), actions[1..],
                   if a.WriteInput? && Accepts(s, a.work) then log[a.work.id := Submission(a.work.request, a.payload)] else log);
    }
  }

  /**
   Over any run, a stored Work carries the very request that was submitted under its id, and its input file, as long as
   it is there, the very payload; until the acknowledgement it is there.
   */
  lemma {:induction false} SubmissionIsKept(actions: seq<Action>, id: WorkId)
    requires id in Run(INIT, actions).db.records
    ensures var s := Run(INIT, actions); var log := Submissions(INIT, actions, map[]); var w := s.db.records[id].work;
            && id in log && w.request == log[id].request
            && (id in s.inputs ==> s.inputs[id] == log[id].payload)
            && (!w.acknowledged ==> id in s.inputs)
  {
    InitHolds();
    SubmittedRun(INIT, actions, map[]);
    ResultIsDurable(actions, id);
    hide Run, Submissions;
  }

  // Cancel

  /** A cancel command changes the table as it should, and nothing else. */
  lemma {:induction false} CancelTakes(s: Sys, id: WorkId)
    requires s.up && s.client.Ready? && id in s.db.records
    ensures var t := Step(s, CancelWork(id));
            t == s.(db := t.db) && TouchesOnly(s.db, t.db, id) && CancelledAs(s.db.records[id], t.db.records[id])
  {
    CancelMeaning(s.db, id);
    hide Cancel;
  }

  /** A Work that has not finished. */
  predicate Unfinished(s: Sys, id: WorkId) {
    id in s.db.records && (s.db.records[id].work.state.Queued? || s.db.records[id].work.state.Running?)
  }

  lemma {:induction false} CancelRequests(s: Sys, id: WorkId)
    requires Inv(s) && s.up && s.client.Ready? && Unfinished(s, id)
    ensures var t := Step(s, CancelWork(id));
            && Inv(t) && Requested(t, id) && t.tasks == s.tasks && !SucceededIn(t, id)
            && t.db.records[id].work.attemptCount == s.db.records[id].work.attemptCount
  {
    StepKeeps(s, CancelWork(id));
    CancelTakes(s, id);
    hide Step, Inv;
  }

  /**
   A cancel command on a Work that has not finished always takes effect, unless an executor of it has already committed
   to a success: then, and only then, some continuation still ends with the Work succeeded. In every continuation no
   further attempt starts.
   */
  lemma {:induction false} CancelCommandPrevails(s: Sys, id: WorkId, later: seq<Action>)
    requires Inv(s) && s.up && s.client.Ready? && Unfinished(s, id)
    ensures var t := Step(s, CancelWork(id));
            && ((exists actions :: SucceededIn(Run(t, actions), id)) <==>
                  (exists k :: Owns(s.tasks, k, id) && CommittedPhase(s.tasks[k].phase)))
            && Requested(Run(t, later), id)
            && Run(t, later).db.records[id].work.attemptCount == s.db.records[id].work.attemptCount
  {
    var t := Step(s, CancelWork(id));
    CancelRequests(s, id);
    hide Step, Inv, Run, SucceededIn;
    CancelLosesOnlyToCommit(t, id);
    CancelIsSticky(t, later, id);
  }

  // Acknowledgement

  /** An acknowledgement of an available result is accepted, and its command removes both files. */
  lemma {:induction false} AcknowledgementTakes(s: Sys, id: WorkId)
    requires s.up && s.client.Ready? && ResultAvailable(s, id)
    ensures var t := Run(Step(s, AcknowledgeWork(id)), [RemoveInput, RemoveResult]);
            && t == s.(inputs := s.inputs - {id}, results := s.results - {id}, db := t.db)
            && TouchesOnly(s.db, t.db, id) && AcknowledgedIn(t, id) && !ResultAvailable(t, id)
  {
    var a := Step(s, AcknowledgeWork(id));
    AcknowledgeMeaning(s.db, id);
    assert a == s.(db := a.db, client := Acknowledged(id)) && a.db == Acknowledge(s.db, id);
    RunTwo(a, RemoveInput, RemoveResult);
    hide Run, Acknowledge;
  }

  /** Where the files of an acknowledged Work can still be: only in the hands of the command that removes them. */
  predicate Cleared(s: Sys, id: WorkId) {
    || s.client == Acknowledged(id)
    || (s.client == InputRemoved(id) && id !in s.inputs)
    || (id !in s.inputs && id !in s.results)
  }

  ghost predicate AllCleared(s: Sys) {
    forall id :: AcknowledgedIn(s, id) ==> Cleared(s, id)
  }

  lemma {:induction false} NewlyAcknowledged(s: Sys, a: Action, id: WorkId)
    requires Inv(s) && AcknowledgedIn(Step(s, a), id) && !AcknowledgedIn(s, id)
    ensures Step(s, a).client == Acknowledged(id)
  {
    hide Step, Inv, Apply, AcknowledgeSucceeds;
    if id in s.db.records {
      var e := StepEffect(s, a, id);
      AcknowledgeEffectOnly(s.db.records[id], e, s.clock);
      AcknowledgesNow(s, id);
    } else {
      StepInserts(s, a, id);
    }
  }

  lemma {:induction false} AcknowledgesNow(s: Sys, id: WorkId)
    requires AcknowledgeSucceeds(s, id)
    ensures Step(s, AcknowledgeWork(id)).client == Acknowledged(id)
  {
    hide Acknowledge;
  }

  lemma {:induction false} AcknowledgeEffectOnly(r: Record, e: Effect, clock: int)
    requires Apply(r, e, clock).work.acknowledged && !r.work.acknowledged
    ensures e.AcknowledgeEffect?
  {
  }

  /** The steps of the connection thread while it removes the files of an acknowledged Work. */
  lemma {:induction false} RemovalSteps(s: Sys, a: Action, id: WorkId)
    requires OfClient(a) && (s.client == Acknowledged(id) || s.client == InputRemoved(id))
    requires Cleared(s, id)
    ensures Cleared(Step(s, a), id)
  {
    hide Submit, Acknowledge, NewWork;
  }

  lemma {:induction false} WritesOwnResult(s: Sys, k: nat)
    ensures DoWrite(s, k).inputs == s.inputs
    ensures forall id :: id in DoWrite(s, k).results && id !in s.results ==>
                           k in s.tasks && s.tasks[k].phase.Committed? && s.tasks[k].work.id == id
  {
  }

  lemma {:induction false} ClientFiles(s: Sys, a: Action, id: WorkId)
    requires id in s.db.records && (a.RemoveResult? || a.RemoveInput? || a.WriteInput?)
    ensures id !in s.inputs ==> id !in Step(s, a).inputs
    ensures id !in s.results ==> id !in Step(s, a).results
  {
    hide NewWork;
  }

  /** A file that is gone does not come back: the id is taken, and no executor of the Work is left. */
  lemma {:induction false} StaysGone(s: Sys, a: Action, id: WorkId)
    requires Inv(s) && AcknowledgedIn(s, id)
    ensures id !in s.inputs ==> id !in Step(s, a).inputs
    ensures id !in s.results ==> id !in Step(s, a).results
  {
    hide Inv, DoDecide, DoWrite, DoRemoveResult, DoRemoveInput, DoWriteInput;
    AcknowledgedHasNoExecutor(s, id);
    if a.TaskDecide? {
      DecideDisk(s, a.task, a.outcome);
    } else if a.TaskWrite? {
      WritesOwnResult(s, a.task);
    } else if a.RemoveResult? || a.RemoveInput? || a.WriteInput? {
      ClientFiles(s, a, id);
    } else {
      hide Step;
      OtherDisk(s, a);
    }
  }

  lemma {:induction false} NoDeath(s: Sys, a: Action)
    requires Inv(s) && !a.Crash?
    ensures !Dies(s, a)
  {
    hide TasksOk, Exclusive, OwnedOk, HoldersOk, CountersOk, FilesOk, ClientOk, RecordOk, Select, Eligible;
    if s.sched.Admitted? {
      assert s.sched.work.id in s.db.records;
      hide SchedOk;
      AdmittedIsNew(s, s.sched.work.id);
    }
  }

  lemma {:induction false} StaysCleared(s: Sys, a: Action, id: WorkId)
    requires Inv(s) && !a.Crash? && AcknowledgedIn(s, id) && Cleared(s, id)
    ensures Cleared(Step(s, a), id)
  {
    if OfClient(a) && (s.client == Acknowledged(id) || s.client == InputRemoved(id)) {
      RemovalSteps(s, a, id);
    } else {
      NoDeath(s, a);
      ClientSteps(s, a);
      StaysGone(s, a, id);
      hide Step, Inv, Dies;
    }
  }

  lemma {:induction false} ClearedRun(s: Sys, actions: seq<Action>)
    requires Inv(s) && AllCleared(s) && forall i :: 0 <= i < |actions| ==> !actions[i].Crash?
    ensures AllCleared(Run(s, actions))
    decreases |actions|
  {
    if actions != [] {
      var t := Step(s, actions[0]);
      StepKeeps(s, actions[0]);
      forall id | AcknowledgedIn(t, id)
        ensures Cleared(t, id)
      {
        if AcknowledgedIn(s, id) {
          StaysCleared(s, actions[0], id);
        } else {
          NewlyAcknowledged(s, actions[0], id);
        }
      }
      hide Step, Inv, AcknowledgedIn, Cleared;
      ClearedRun(t, actions[1..]);
    }
  }

  /**
   In every run in which the process does not crash, an acknowledged Work leaves no file behind once the command that
   acknowledged it has ended.
   */
  lemma {:induction false} NothingIsLeftBehind(actions: seq<Action>, id: WorkId)
    requires forall i :: 0 <= i < |actions| ==> !actions[i].Crash?
    requires AcknowledgedIn(Run(INIT, actions), id) && Run(INIT, actions).client.Ready?
    ensures id !in Run(INIT, actions).inputs && id !in Run(INIT, actions).results
  {
    InitHolds();
    ClearedRun(INIT, actions);
    hide Run;
    assert Cleared(Run(INIT, actions), id);
  }
}
