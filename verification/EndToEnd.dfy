/**
 From a Work's input file to its result, through the worker that answered. The executors' calls are the supervised calls
 of worker processes; every worker answers only requests that it was sent, but may write its frames whenever it likes.
 */
module EndToEnd {
  import opened Basics
  import opened StoreModel
  import opened RecordInvariant
  import opened System
  import opened Invariant
  import opened Preservation
  import opened Effects
  import opened Movements
  import opened Lifecycle
  import opened Durability
  import opened Commands
  import opened Reader
  import S = Supervision

  /** One worker process: the calls it served, the attempts that made them, the frames it wrote and what is unread. */
  datatype Worker = Worker(
    calls: seq<S.Call>,
    attempts: seq<(WorkId, int)>,
    items: seq<Item>,
    origin: seq<nat>,
    unread: Bytes)

  ghost predicate Honest(w: Worker) {
    && |w.attempts| == |w.calls| && S.WellFormed(w.calls) && AllLegal(w.items)
    && Wire(w.items) == [] + (S.ReceivedIn(S.Serve([], w.calls)) + w.unread)
    && S.FreshCorrelations(w.calls) && S.Answers(w.items, w.origin, w.calls)
  }

  /** Call `i` of the worker was made for this attempt, carried `input` to it, and succeeded with `payload`. */
  ghost predicate Served(w: Worker, i: nat, attempt: (WorkId, int), input: Bytes, payload: Bytes) {
    && Honest(w)
    && i < |S.Serve([], w.calls)| && w.attempts[i] == attempt && w.calls[i].request.payload == input
    && S.Serve([], w.calls)[i].outcome == Some(S.Succeeded(payload))
  }

  ghost predicate ServedBySome(workers: set<Worker>, attempt: (WorkId, int), input: Bytes, payload: Bytes) {
    exists w, i :: w in workers && Served(w, i, attempt, input, payload)
  }

  /** What the executors read from their input files, by attempt. */
  type Asked = map<(WorkId, int), Bytes>

  predicate Asks(asked: Asked, attempt: (WorkId, int), input: Bytes) {
    attempt in asked && asked[attempt] == input
  }

  /** Executor `k` begins its call in this step. */
  predicate Starts(s: Sys, t: Sys, k: nat) {
    k in s.tasks && s.tasks[k].phase.Launched? && k in t.tasks && t.tasks[k].phase.Executing?
  }

  /** An executor sends what it read from its input file, and learns of a success only from a call of its own. */
  ghost predicate SupervisedStep(s: Sys, t: Sys, workers: set<Worker>, asked: Asked) {
    && (forall k :: Starts(s, t, k) && s.tasks[k].work.id in s.inputs ==>
                      Asks(asked, AttemptOf(s.tasks[k]), s.inputs[s.tasks[k].work.id]))
    && (forall k, payload :: Learns(s, t, k, payload) ==>
          var attempt := AttemptOf(s.tasks[k]);
          attempt in asked && ServedBySome(workers, attempt, asked[attempt], payload))
  }

  ghost predicate Supervised(s: Sys, actions: seq<Action>, workers: set<Worker>, asked: Asked)
    decreases |actions|
  {
    actions != [] ==>
      var t := Step(s, actions[0]);
      SupervisedStep(s, t, workers, asked) && Supervised(t, actions[1..], workers, asked)
  }

  // What every supervised run keeps

  predicate InCall(p: Phase) {
    p.Executing? || p.Decided? || p.Withdrawing? || p.Committed? || p.Written?
  }

  /** The input on disk is the one that the attempt sent. */
  predicate InputSent(inputs: Files, asked: Asked, attempt: (WorkId, int)) {
    attempt.0 in inputs && Asks(asked, attempt, inputs[attempt.0])
  }

  ghost predicate TasksSent(s: Sys, asked: Asked) {
    forall k :: k in s.tasks && InCall(s.tasks[k].phase) ==> InputSent(s.inputs, asked, AttemptOf(s.tasks[k]))
  }

  predicate Unclaimed(r: Record) {
    r.work.state.Succeeded? && !r.work.acknowledged
  }

  ghost predicate ResultsSent(s: Sys, asked: Asked) {
    forall id :: id in s.db.records && Unclaimed(s.db.records[id]) ==>
                   InputSent(s.inputs, asked, (id, s.db.records[id].work.attemptCount))
  }

  ghost predicate OutputsServed(outputs: Outputs, workers: set<Worker>, asked: Asked) {
    forall key :: key in outputs ==> key in asked && ServedBySome(workers, key, asked[key], outputs[key])
  }

  ghost predicate Traced(s: Sys, workers: set<Worker>, asked: Asked) {
    TasksSent(s, asked) && ResultsSent(s, asked) && OutputsServed(s.outputs, workers, asked)
  }

  lemma {:induction false} OutputsStayServed(s: Sys, a: Action, workers: set<Worker>, asked: Asked)
    requires OutputsServed(s.outputs, workers, asked) && SupervisedStep(s, Step(s, a), workers, asked)
    ensures OutputsServed(Step(s, a).outputs, workers, asked)
  {
    var t := Step(s, a);
    hide Step, ServedBySome;
    forall key | key in t.outputs
      ensures key in asked && ServedBySome(workers, key, asked[key], t.outputs[key])
    {
      OutputStep(s, a, key);
      if k :| Learns(s, t, k, t.outputs[key]) && key == AttemptOf(s.tasks[k]) {
        assert AttemptOf(s.tasks[k]) in asked;
      }
    }
  }

  /** The input of an unacknowledged Work is on disk and stays as it is. */
  lemma {:induction false} InputStays(s: Sys, a: Action, id: WorkId)
    requires Inv(s) && id in s.db.records && !s.db.records[id].work.acknowledged
    ensures id in s.inputs && id in Step(s, a).inputs && Step(s, a).inputs[id] == s.inputs[id]
  {
    assert id in s.inputs by {
      hide DbOk, TasksOk, Exclusive, SchedOk, OwnedOk, HoldersOk, CountersOk, ClientOk, ResultOk;
    }
    InputStep(s, a, id);
  }

  lemma {:induction false} CarriedWork(s: Sys, k: nat)
    requires Inv(s) && k in s.tasks && !s.tasks[k].phase.Settled?
    ensures var id := s.tasks[k].work.id;
            && id in s.db.records && s.db.records[id].work.state.Running? && !s.db.records[id].work.acknowledged
            && s.db.records[id].work.attemptCount == s.tasks[k].attempt
  {
    hide Exclusive, SchedOk, OwnedOk, HoldersOk, CountersOk, FilesOk, ClientOk, PhaseOk;
    assert Carries(s.db, s.tasks[k]);
    assert RecordOk(s.tasks[k].work.id, s.db.records[s.tasks[k].work.id]);
  }

  lemma {:induction false} CallsContinue(s: Sys, t: Task, p: Phase)
    requires PhaseStep(s, t, p) && InCall(p)
    ensures InCall(t.phase) || (t.phase.Launched? && p.Executing?)
  {
    hide Observable, CancelRequested;
  }

  lemma {:induction false} LaunchStaysSent(s: Sys, ok: bool, why: Bytes, asked: Asked, k: nat)
    requires TasksSent(s, asked)
    ensures var t := DoLaunch(s, ok, why);
            k in t.tasks && InCall(t.tasks[k].phase) ==> InputSent(t.inputs, asked, AttemptOf(t.tasks[k]))
  {
    LaunchDisk(s, ok, why);
    if k in DoLaunch(s, ok, why).tasks {
      LaunchSteps(s, ok, why, k);
      hide DoLaunch, InputSent;
    }
  }

  lemma {:induction false} TaskStaysSent(s: Sys, a: Action, workers: set<Worker>, asked: Asked, k: nat)
    requires Inv(s) && TasksSent(s, asked) && SupervisedStep(s, Step(s, a), workers, asked) && !a.SchedLaunch?
    requires k in Step(s, a).tasks && InCall(Step(s, a).tasks[k].phase)
    ensures InputSent(Step(s, a).inputs, asked, AttemptOf(Step(s, a).tasks[k]))
  {
    var t := Step(s, a);
    TaskSteps(s, a, k);
    hide Step;
    CallsContinue(s, s.tasks[k], t.tasks[k].phase);
    CarriedWork(s, k);
    InputStays(s, a, s.tasks[k].work.id);
    hide Inv, PhaseStep;
  }

  lemma {:induction false} TasksStaySent(s: Sys, a: Action, workers: set<Worker>, asked: Asked)
    requires Inv(s) && TasksSent(s, asked) && SupervisedStep(s, Step(s, a), workers, asked)
    ensures TasksSent(Step(s, a), asked)
  {
    hide InCall, InputSent, SupervisedStep, Inv, DoLaunch;
    forall k | k in Step(s, a).tasks && InCall(Step(s, a).tasks[k].phase)
      ensures InputSent(Step(s, a).inputs, asked, AttemptOf(Step(s, a).tasks[k]))
    {
      if a.SchedLaunch? {
        LaunchStaysSent(s, a.ok, a.why, asked, k);
      } else {
        TaskStaysSent(s, a, workers, asked, k);
      }
    }
  }

  lemma {:induction false} SuccessEffect(r: Record, e: Effect, clock: int)
    requires !r.work.state.Succeeded? && Apply(r, e, clock).work.state.Succeeded?
    ensures e.SucceedEffect? && Apply(r, e, clock).work.attemptCount == r.work.attemptCount
  {
  }

  /** A Work succeeds only through the executor that carries its current attempt and has written its result. */
  lemma {:induction false} SuccessSource(s: Sys, a: Action, id: WorkId) returns (k: nat)
    requires Inv(s) && id in s.db.records && !s.db.records[id].work.state.Succeeded?
    requires id in Step(s, a).db.records && Step(s, a).db.records[id].work.state.Succeeded?
    ensures k in s.tasks && InCall(s.tasks[k].phase) && AttemptOf(s.tasks[k]) == (id, s.db.records[id].work.attemptCount)
    ensures Step(s, a).db.records[id].work.attemptCount == s.db.records[id].work.attemptCount
    ensures !s.db.records[id].work.acknowledged
  {
    var e := StepEffect(s, a, id);
    hide Step;
    SuccessEffect(s.db.records[id], e, s.clock);
    hide Apply;
    k := a.task;
    CarriedWork(s, k);
    hide Inv;
  }

  lemma {:induction false} ResultStaysSent(s: Sys, a: Action, asked: Asked, id: WorkId)
    requires Inv(s) && TasksSent(s, asked) && ResultsSent(s, asked)
    requires id in Step(s, a).db.records && Unclaimed(Step(s, a).db.records[id])
    ensures InputSent(Step(s, a).inputs, asked, (id, Step(s, a).db.records[id].work.attemptCount))
  {
    StepKeeps(s, a);
    if id !in s.db.records {
      StepInserts(s, a, id);
      assert false;
    } else {
      assert Progress(s.db.records[id], Step(s, a).db.records[id]);
      if !s.db.records[id].work.state.Succeeded? {
        var k := SuccessSource(s, a, id);
      } else {
        TerminalIsAbsorbing(s, [a], id);
      }
      InputStays(s, a, id);
      hide Step, Inv;
    }
  }

  lemma {:induction false} TracedRun(s: Sys, actions: seq<Action>, workers: set<Worker>, asked: Asked)
    requires Inv(s) && Traced(s, workers, asked) && Supervised(s, actions, workers, asked)
    ensures Traced(Run(s, actions), workers, asked)
    decreases |actions|
  {
    if actions != [] {
      var a := actions[0];
      var t := Step(s, a);
      StepKeeps(s, a);
      TasksStaySent(s, a, workers, asked);
      OutputsStayServed(s, a, workers, asked);
      forall id | id in t.db.records && Unclaimed(t.db.records[id])
        ensures InputSent(t.inputs, asked, (id, t.db.records[id].work.attemptCount))
      {
        ResultStaysSent(s, a, asked, id);
      }
      hide Step, Inv, TasksSent, OutputsServed, SupervisedStep, Unclaimed, InputSent;
      TracedRun(t, actions[1..], workers, asked);
    }
  }

  /** Frame `i` of the worker is its answer to the request that this attempt sent with `input`. */
  ghost predicate Answered(w: Worker, i: nat, attempt: (WorkId, int), input: Bytes, result: Bytes) {
    && Honest(w) && i < |w.items| && i < |w.calls| && w.origin[i] == i
    && w.attempts[i] == attempt && w.calls[i].request.payload == input
    && w.items[i].frame.msgType == S.WORKER_RESULT
    && w.items[i].frame.correlation == w.calls[i].request.correlation
    && w.items[i].frame.payload == result
  }

  lemma {:induction false} ServedIsAnswered(w: Worker, i: nat, attempt: (WorkId, int), input: Bytes, payload: Bytes)
    requires Served(w, i, attempt, input, payload)
    ensures Answered(w, i, attempt, input, payload)
  {
    hide Wire, S.Serve, S.WellFormed, S.FreshCorrelations;
    S.NoForeignPayload(w.calls, w.unread, w.items, w.origin, i);
  }

  /**
   End to end. In every run from the start whose executors call honest workers, crashes, restarts and retries included,
   an available result is the payload of a frame that answers, under its own correlation id, the request of the Work's
   current attempt, and that request carried the payload that was submitted under the Work's id.
   */
  lemma {:induction false} ResultIsTheAnswer(actions: seq<Action>, workers: set<Worker>, asked: Asked, id: WorkId)
    requires Supervised(INIT, actions, workers, asked)
    requires ResultAvailable(Run(INIT, actions), id)
    ensures var s := Run(INIT, actions); var log := Submissions(INIT, actions, map[]);
            && id in log && s.db.records[id].work.request == log[id].request
            && var attempt := (id, s.db.records[id].work.attemptCount);
               exists w, i :: w in workers && Answered(w, i, attempt, log[id].payload, s.results[id])
  {
    InitHolds();
    TracedRun(INIT, actions, workers, asked);
    ResultIsDurable(actions, id);
    SubmissionIsKept(actions, id);
    var s := Run(INIT, actions);
    var attempt := (id, s.db.records[id].work.attemptCount);
    hide Run, Supervised, TasksSent, Served, Answered, Submissions;
    assert InputSent(s.inputs, asked, attempt) && ServedBySome(workers, attempt, asked[attempt], s.outputs[attempt]);
    var w, i :| w in workers && Served(w, i, attempt, s.inputs[id], s.results[id]);
    ServedIsAnswered(w, i, attempt, s.inputs[id], s.results[id]);
  }
}
