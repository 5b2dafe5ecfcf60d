/**
 One supervised call of a worker. Everything the call observes, in the order in which it looks, is a script: the theorems
 hold for every script. A script that runs out leaves the call still waiting.
 */
module Supervision {
  import opened Basics
  import opened Codec
  import opened Reader

  const WORKER_RESULT := 201
  const WORKER_FAILURE := 202

  datatype WorkerOutcome =
    | Stopped
    | Cancelled
    | TimedOut
    | TechnicalFailure(text: Bytes)
    | ProtocolFailure(error: Protocol)
    | Crashed
    | Succeeded(payload: Bytes)

  /** The technical failures that the supervisor itself words. */
  datatype Protocol = BadRequest(e: Error) | BadResponse(e: Error) | CorrelationMismatch | UnexpectedType | MissingText
                    | WriteFailed | PollFailed

  datatype WriteStep = Wrote(n: nat) | WouldBlock(pollFails: bool) | WriteError(alive: bool)

  /** What one round of the writing loop sees: the stop flag, the cancel flag, the clock, the process, the pipe. */
  datatype WriteRound = WriteRound(stopping: bool, cancelled: bool, now: int, alive: bool, step: WriteStep)

  /** One round of the reading loop; `again` is the second look at the pipe before a cancellation or a timeout. */
  datatype ReadRound = ReadRound(
    first: Turn,
    stopping: bool,
    cancelled: bool,
    now: int,
    again: Turn,
    aliveOnError: bool,
    alive: bool,
    pollFails: bool)

  datatype Call = Call(
    request: Frame,
    keys: seq<Bytes>,
    stopAt: Option<int>,
    aliveAtStart: bool,
    sends: seq<WriteRound>,
    waits: seq<ReadRound>)

  /**
   How a call ends. `gone` says that the process was terminated or found dead. `received` is what was read from the pipe,
   `consumed` the frame that was taken from it.
   */
  datatype Ending = Ending(
    outcome: Option<WorkerOutcome>,
    gone: bool,
    buffer: Bytes,
    received: Bytes,
    consumed: Option<Frame>,
    sent: nat)

  predicate StopTimeReached(stopAt: Option<int>, now: int) {
    stopAt.Some? && now >= stopAt.value
  }

  const FAILURE_KEY := Ascii("technical_failure")

  /** What a response means, and whether the process must go. */
  function FinishResponse(f: Frame, correlation: U64): (WorkerOutcome, bool) {
    if f.correlation != correlation then (ProtocolFailure(CorrelationMismatch), true)
    else if f.msgType == WORKER_RESULT then (Succeeded(f.payload), false)
    else if f.msgType == WORKER_FAILURE then
      (if FAILURE_KEY in f.metadata then TechnicalFailure(f.metadata[FAILURE_KEY]) else ProtocolFailure(MissingText), false)
    else (ProtocolFailure(UnexpectedType), true)
  }

  // Sending the request

  datatype Sending = Sent | SendEnded(outcome: WorkerOutcome) | SendPending

  /** The writing loop from an offset on; every way out but completion ends with the process gone. */
  function SendFrom(total: nat, offset: nat, stopAt: Option<int>, rounds: seq<WriteRound>): (Sending, nat)
    decreases |rounds|
  {
    if offset >= total then (Sent, offset)
    else if rounds == [] then (SendPending, offset)
    else
      var r := rounds[0];
      if r.stopping then (SendEnded(Stopped), offset)
      else if r.cancelled then (SendEnded(Cancelled), offset)
      else if StopTimeReached(stopAt, r.now) then (SendEnded(TimedOut), offset)
      else if !r.alive then (SendEnded(Crashed), offset)
      else
        match r.step
        case Wrote(n) => SendFrom(total, offset + Min(n, total - offset), stopAt, rounds[1..])
        case WouldBlock(false) => SendFrom(total, offset, stopAt, rounds[1..])
        case WouldBlock(true) => (SendEnded(ProtocolFailure(PollFailed)), offset)
        case WriteError(alive) => (SendEnded(if alive then ProtocolFailure(WriteFailed) else Crashed), offset)
  }

  // Waiting for the response

  /** How one look at the pipe ends the call, if it does. */
  function Looked(look: (TurnResult, Bytes), received: Bytes, correlation: U64, aliveOnError: bool, sent: nat): Option<Ending> {
    match look.0
    case Nothing => None
    case Delivered(f) =>
      var (outcome, gone) := FinishResponse(f, correlation);
      Some(Ending(Some(outcome), gone, look.1, received, Some(f), sent))
    case Raised(e) =>
      Some(Ending(Some(if aliveOnError then ProtocolFailure(BadResponse(e)) else Crashed), true, look.1, received, None, sent))
  }

  /** One more look before a cancellation or a timeout takes effect: a response that is there wins. */
  function LastLook(buffer: Bytes, r: ReadRound, correlation: U64, sent: nat): Ending {
    var again := TakeTurn(buffer, r.again);
    match Looked(again, Joined(r.again.chunks), correlation, r.aliveOnError, sent)
    case Some(ending) => ending
    case None =>
      Ending(Some(if r.cancelled then Cancelled else TimedOut), true, again.1, Joined(r.again.chunks), None, sent)
  }

  function AwaitFrom(buffer: Bytes, correlation: U64, stopAt: Option<int>, rounds: seq<ReadRound>, sent: nat): Ending
    decreases |rounds|
  {
    if rounds == [] then Ending(None, false, buffer, [], None, sent)
    else
      var r := rounds[0];
      var look := TakeTurn(buffer, r.first);
      var got := Joined(r.first.chunks);
      match Looked(look, got, correlation, r.aliveOnError, sent)
      case Some(ending) => ending
      case None =>
        if r.stopping then Ending(Some(Stopped), true, look.1, got, None, sent)
        else if r.cancelled || StopTimeReached(stopAt, r.now) then
          var e := LastLook(look.1, r, correlation, sent);
          e.(received := got + e.received)
        else if !r.alive then Ending(Some(Crashed), true, look.1, got, None, sent)
        else if r.pollFails then Ending(Some(ProtocolFailure(PollFailed)), true, look.1, got, None, sent)
        else
          var e := AwaitFrom(look.1, correlation, stopAt, rounds[1..], sent);
          e.(received := got + e.received)
  }

  function Execute(buffer: Bytes, c: Call): Ending
    requires forall k :: k in c.keys ==> k in c.request.metadata
  {
    if !c.aliveAtStart then Ending(Some(Crashed), true, buffer, [], None, 0)
    else
      match EncodeFrame(c.request, c.keys)
      case Err(e) => Ending(Some(ProtocolFailure(BadRequest(e))), true, buffer, [], None, 0)
      case Ok(encoded) =>
        var (sending, sent) := SendFrom(|encoded|, 0, c.stopAt, c.sends);
        match sending
        case SendPending => Ending(None, false, buffer, [], None, sent)
        case SendEnded(outcome) => Ending(Some(outcome), true, buffer, [], None, sent)
        case Sent => AwaitFrom(buffer, c.request.correlation, c.stopAt, c.waits, sent)
  }

  // What every ending guarantees

  /** A response that the supervisor accepts. */
  predicate Accepted(f: Frame, correlation: U64) {
    f.correlation == correlation && (f.msgType == WORKER_RESULT || f.msgType == WORKER_FAILURE)
  }

  /** The process is left alive only by an accepted response; a success carries the payload of such a response. */
  predicate EndsCleanly(e: Ending, correlation: U64) {
    && (e.outcome.Some? && !e.gone ==> e.consumed.Some? && Accepted(e.consumed.value, correlation))
    && (e.outcome.Some? && e.outcome.value.Succeeded? ==>
          && !e.gone && e.consumed.Some?
          && e.consumed.value.msgType == WORKER_RESULT && e.consumed.value.payload == e.outcome.value.payload)
  }

  lemma {:induction false} AwaitEndsCleanly(buffer: Bytes, correlation: U64, stopAt: Option<int>, rounds: seq<ReadRound>,
                                            sent: nat)
    ensures var e := AwaitFrom(buffer, correlation, stopAt, rounds, sent); EndsCleanly(e, correlation) && e.sent == sent
    decreases |rounds|
  {
    hide TakeTurn, Joined;
    if rounds != [] {
      AwaitEndsCleanly(TakeTurn(buffer, rounds[0].first).1, correlation, stopAt, rounds[1..], sent);
    }
  }

  lemma {:induction false} SendIsComplete(total: nat, offset: nat, stopAt: Option<int>, rounds: seq<WriteRound>)
    requires offset <= total
    ensures var (s, n) := SendFrom(total, offset, stopAt, rounds);
            && n <= total && (s.Sent? ==> n == total)
            && (s.SendEnded? ==> !s.outcome.Succeeded?)
    decreases |rounds|
  {
    if offset < total && rounds != [] {
      var r := rounds[0];
      if r.step.Wrote? {
        SendIsComplete(total, offset + Min(r.step.n, total - offset), stopAt, rounds[1..]);
      } else {
        SendIsComplete(total, offset, stopAt, rounds[1..]);
      }
    }
  }

  /**
   Reuse is clean: a call leaves its worker alive only after it has sent the whole request and consumed one response
   frame with its own correlation id; a success is the payload of that very frame.
   */
  lemma {:induction false} CleanReuse(buffer: Bytes, c: Call)
    requires forall k :: k in c.keys ==> k in c.request.metadata
    ensures var e := Execute(buffer, c);
            && EndsCleanly(e, c.request.correlation)
            && (e.consumed.Some? ==> EncodeFrame(c.request, c.keys).Ok? && e.sent == |Encoded(c.request, c.keys)|)
  {
    if EncodeFrame(c.request, c.keys).Ok? {
      var encoded := EncodeFrame(c.request, c.keys).value;
      var (sending, sent) := SendFrom(|encoded|, 0, c.stopAt, c.sends);
      SendIsComplete(|encoded|, 0, c.stopAt, c.sends);
      AwaitEndsCleanly(buffer, c.request.correlation, c.stopAt, c.waits, sent);
    }
    hide EncodeFrame, SendFrom, AwaitFrom;
  }

  // Why a call ends

  predicate StopSeen(c: Call) {
    (exists i :: 0 <= i < |c.sends| && c.sends[i].stopping) || (exists i :: 0 <= i < |c.waits| && c.waits[i].stopping)
  }

  predicate CancelSeen(c: Call) {
    (exists i :: 0 <= i < |c.sends| && c.sends[i].cancelled) || (exists i :: 0 <= i < |c.waits| && c.waits[i].cancelled)
  }

  predicate StopTimeSeen(c: Call) {
    || (exists i :: 0 <= i < |c.sends| && StopTimeReached(c.stopAt, c.sends[i].now))
    || (exists i :: 0 <= i < |c.waits| && StopTimeReached(c.stopAt, c.waits[i].now))
  }

  lemma {:induction false} SendReasons(total: nat, offset: nat, stopAt: Option<int>, rounds: seq<WriteRound>)
    ensures var (s, n) := SendFrom(total, offset, stopAt, rounds);
            && (s == SendEnded(Stopped) ==> exists i :: 0 <= i < |rounds| && rounds[i].stopping)
            && (s == SendEnded(Cancelled) ==> exists i :: 0 <= i < |rounds| && rounds[i].cancelled)
            && (s == SendEnded(TimedOut) ==> exists i :: 0 <= i < |rounds| && StopTimeReached(stopAt, rounds[i].now))
    decreases |rounds|
  {
    if offset < total && rounds != [] {
      var r := rounds[0];
      assert rounds == [r] + rounds[1..];
      if r.step.Wrote? {
        SendReasons(total, offset + Min(r.step.n, total - offset), stopAt, rounds[1..]);
      } else {
        SendReasons(total, offset, stopAt, rounds[1..]);
      }
    }
  }

  lemma {:induction false} AwaitReasons(buffer: Bytes, correlation: U64, stopAt: Option<int>, rounds: seq<ReadRound>, sent: nat)
    ensures var o := AwaitFrom(buffer, correlation, stopAt, rounds, sent).outcome;
            && (o == Some(Stopped) ==> exists i :: 0 <= i < |rounds| && rounds[i].stopping)
            && (o == Some(Cancelled) ==> exists i :: 0 <= i < |rounds| && rounds[i].cancelled)
            && (o == Some(TimedOut) ==> exists i :: 0 <= i < |rounds| && StopTimeReached(stopAt, rounds[i].now))
    decreases |rounds|
  {
    hide TakeTurn, Joined;
    if rounds != [] {
      assert rounds == [rounds[0]] + rounds[1..];
      AwaitReasons(TakeTurn(buffer, rounds[0].first).1, correlation, stopAt, rounds[1..], sent);
    }
  }

  /** A call reports a stop, a cancellation or a timeout only after it has seen the reason for it. */
  lemma {:induction false} ReasonsAreSeen(buffer: Bytes, c: Call)
    requires forall k :: k in c.keys ==> k in c.request.metadata
    ensures var o := Execute(buffer, c).outcome;
            && (o == Some(Stopped) ==> StopSeen(c))
            && (o == Some(Cancelled) ==> CancelSeen(c))
            && (o == Some(TimedOut) ==> StopTimeSeen(c))
  {
    if EncodeFrame(c.request, c.keys).Ok? {
      var total := |EncodeFrame(c.request, c.keys).value|;
      SendReasons(total, 0, c.stopAt, c.sends);
      AwaitReasons(buffer, c.request.correlation, c.stopAt, c.waits, SendFrom(total, 0, c.stopAt, c.sends).1);
    }
    hide EncodeFrame, SendFrom, AwaitFrom;
  }

  // Which frame a call consumes

  /** One look at a pipe on which the worker writes legal frames. */
  lemma {:induction false} LookOnWire(buffer: Bytes, t: Turn, rest: Bytes, items: seq<Item>)
    requires |buffer| <= MAX_BUFFER && AllLegal(items) && Wire(items) == buffer + (Joined(t.chunks) + rest)
    ensures var (r, b) := TakeTurn(buffer, t);
            && |b| <= MAX_BUFFER
            && (|| r.Raised?
                || (r == Nothing && Wire(items) == b + rest)
                || (items != [] && r == Delivered(items[0].frame) && Wire(items[1..]) == b + rest))
  {
    assert buffer + (Joined(t.chunks) + rest) == buffer + Joined(t.chunks) + rest;
    FillMeaning(buffer, t.chunks);
    if t.end.BudgetSpent? || t.end.Drained? {
      TurnOnWire(buffer, t, rest, items);
    }
    hide FillBuffer, Wire, Answer, Left;
  }

  ghost predicate TookFirst(e: Ending, unread: Bytes, items: seq<Item>)
    requires AllLegal(items)
  {
    e.outcome.Some? && !e.gone ==>
      items != [] && e.consumed == Some(items[0].frame) && Wire(items[1..]) == e.buffer + unread && |e.buffer| <= MAX_BUFFER
  }

  lemma {:induction false} LastLookOnWire(buffer: Bytes, r: ReadRound, correlation: U64, sent: nat, unread: Bytes, items: seq<Item>)
    requires |buffer| <= MAX_BUFFER && AllLegal(items)
    requires Wire(items) == buffer + (LastLook(buffer, r, correlation, sent).received + unread)
    ensures TookFirst(LastLook(buffer, r, correlation, sent), unread, items)
  {
    LookOnWire(buffer, r.again, unread, items);
    hide TakeTurn, Wire, Joined;
  }

  /** Whatever frames the worker writes, a call that leaves it alive takes exactly the first of them. */
  lemma {:induction false} AwaitOnWire(buffer: Bytes, correlation: U64, stopAt: Option<int>, rounds: seq<ReadRound>, sent: nat,
                                       unread: Bytes, items: seq<Item>)
    requires |buffer| <= MAX_BUFFER && AllLegal(items)
    requires Wire(items) == buffer + (AwaitFrom(buffer, correlation, stopAt, rounds, sent).received + unread)
    ensures TookFirst(AwaitFrom(buffer, correlation, stopAt, rounds, sent), unread, items)
    decreases |rounds|
  {
    if rounds != [] {
      var r := rounds[0];
      var got := Joined(r.first.chunks);
      var (look, b) := TakeTurn(buffer, r.first);
      hide TakeTurn, Wire, Joined, LastLook;
      if look.Delivered? {
        LookOnWire(buffer, r.first, unread, items);
      } else if look == Nothing && !r.stopping {
        if r.cancelled || StopTimeReached(stopAt, r.now) {
          var last := LastLook(b, r, correlation, sent);
          Associative(got, last.received, unread);
          LookOnWire(buffer, r.first, last.received + unread, items);
          LastLookOnWire(b, r, correlation, sent, unread, items);
        } else if r.alive && !r.pollFails {
          var next := AwaitFrom(b, correlation, stopAt, rounds[1..], sent);
          Associative(got, next.received, unread);
          LookOnWire(buffer, r.first, next.received + unread, items);
          AwaitOnWire(b, correlation, stopAt, rounds[1..], sent, unread, items);
        }
      }
    }
  }

  // The life of one worker

  ghost predicate WellFormed(calls: seq<Call>) {
    forall i :: 0 <= i < |calls| ==> forall k :: k in calls[i].keys ==> k in calls[i].request.metadata
  }

  /** The worker survives a call that has ended without it. */
  predicate Survives(e: Ending) {
    e.outcome.Some? && !e.gone
  }

  /** The calls that one process serves, one after the other, until one of them ends it. */
  ghost function Serve(buffer: Bytes, calls: seq<Call>): (endings: seq<Ending>)
    requires WellFormed(calls)
    ensures |endings| <= |calls|
    decreases |calls|
  {
    if calls == [] then []
    else
      assert forall k :: k in calls[0].keys ==> k in calls[0].request.metadata;
      var e := Execute(buffer, calls[0]);
      [e] + if Survives(e) then Serve(e.buffer, calls[1..]) else []
  }

  function ReceivedIn(endings: seq<Ending>): Bytes {
    if endings == [] then [] else endings[0].received + ReceivedIn(endings[1..])
  }

  lemma {:induction false} ExecuteOnWire(buffer: Bytes, c: Call, unread: Bytes, items: seq<Item>)
    requires forall k :: k in c.keys ==> k in c.request.metadata
    requires |buffer| <= MAX_BUFFER && AllLegal(items)
    requires Wire(items) == buffer + (Execute(buffer, c).received + unread)
    ensures TookFirst(Execute(buffer, c), unread, items)
  {
    if c.aliveAtStart && EncodeFrame(c.request, c.keys).Ok? {
      var total := |EncodeFrame(c.request, c.keys).value|;
      var (sending, sent) := SendFrom(total, 0, c.stopAt, c.sends);
      if sending.Sent? {
        AwaitOnWire(buffer, c.request.correlation, c.stopAt, c.waits, sent, unread, items);
      }
    }
    hide EncodeFrame, SendFrom, AwaitFrom, Wire;
  }

  /** The endings of the later calls. */
  ghost function Later(e: Ending, calls: seq<Call>): seq<Ending>
    requires calls != [] && WellFormed(calls)
  {
    WellFormedTail(calls);
    if Survives(e) then Serve(e.buffer, calls[1..]) else []
  }

  lemma {:induction false} WellFormedTail(calls: seq<Call>)
    requires calls != [] && WellFormed(calls)
    ensures (forall k :: k in calls[0].keys ==> k in calls[0].request.metadata) && WellFormed(calls[1..])
  {
  }

  lemma {:induction false} ServeStep(buffer: Bytes, calls: seq<Call>) returns (e: Ending)
    requires calls != [] && WellFormed(calls)
    ensures forall k :: k in calls[0].keys ==> k in calls[0].request.metadata
    ensures e == Execute(buffer, calls[0]) && Serve(buffer, calls) == [e] + Later(e, calls)
    ensures ReceivedIn(Serve(buffer, calls)) == e.received + ReceivedIn(Later(e, calls))
  {
    WellFormedTail(calls);
    hide Execute;
    e := Execute(buffer, calls[0]);
    var later := Later(e, calls);
    assert ([e] + later)[1..] == later;
  }

  /** The `i`th call that the worker survives consumed exactly the `i`th frame that it wrote. */
  lemma {:induction false} OneFrameEach(buffer: Bytes, calls: seq<Call>, unread: Bytes, items: seq<Item>)
    requires WellFormed(calls) && |buffer| <= MAX_BUFFER && AllLegal(items)
    requires Wire(items) == buffer + (ReceivedIn(Serve(buffer, calls)) + unread)
    ensures var endings := Serve(buffer, calls);
            forall i :: 0 <= i < |endings| && Survives(endings[i]) ==>
                          i < |items| && endings[i].consumed == Some(items[i].frame)
    decreases |calls|
  {
    if calls != [] {
      var e := ServeStep(buffer, calls);
      var later := Later(e, calls);
      WellFormedTail(calls);
      hide Execute, Wire, Serve, ReceivedIn, WellFormed;
      Associative(e.received, ReceivedIn(later), unread);
      ExecuteOnWire(buffer, calls[0], ReceivedIn(later) + unread, items);
      if Survives(e) {
        TailIsLegal(items);
        OneFrameEach(e.buffer, calls[1..], unread, items[1..]);
        ShiftFrames(e, later, items);
      }
    }
  }

  lemma {:induction false} ShiftFrames(e: Ending, later: seq<Ending>, items: seq<Item>)
    requires items != [] && (Survives(e) ==> e.consumed == Some(items[0].frame))
    requires forall i :: 0 <= i < |later| && Survives(later[i]) ==>
                           i < |items| - 1 && later[i].consumed == Some(items[1..][i].frame)
    ensures var endings := [e] + later;
            forall i :: 0 <= i < |endings| && Survives(endings[i]) ==>
                          i < |items| && endings[i].consumed == Some(items[i].frame)
  {
    var endings := [e] + later;
    forall i | 0 <= i < |endings| && Survives(endings[i])
      ensures i < |items| && endings[i].consumed == Some(items[i].frame)
    {
      if i > 0 {
        assert endings[i] == later[i - 1];
      }
    }
  }

  lemma {:induction false} ServedCleanly(buffer: Bytes, calls: seq<Call>)
    requires WellFormed(calls)
    ensures var endings := Serve(buffer, calls);
            forall i :: 0 <= i < |endings| ==> EndsCleanly(endings[i], calls[i].request.correlation)
    decreases |calls|
  {
    if calls != [] {
      assert forall k :: k in calls[0].keys ==> k in calls[0].request.metadata;
      var e := Execute(buffer, calls[0]);
      CleanReuse(buffer, calls[0]);
      hide Execute, EndsCleanly;
      if Survives(e) {
        ServedCleanly(e.buffer, calls[1..]);
      }
    }
  }

  /** Frame `k` that the worker wrote answers request number `origin[k]`: workers answer only ids that they received. */
  ghost predicate Answers(items: seq<Item>, origin: seq<nat>, calls: seq<Call>) {
    && |origin| == |items|
    && forall k :: 0 <= k < |items| ==>
                     && origin[k] < |calls|
                     && items[k].frame.correlation == calls[origin[k]].request.correlation
  }

  ghost predicate FreshCorrelations(calls: seq<Call>) {
    forall i, j :: 0 <= i < j < |calls| ==> calls[i].request.correlation != calls[j].request.correlation
  }

  /**
   No call ever gets another call's payload: with fresh correlation ids, and a worker that answers only ids it received,
   a successful call carries the payload of the frame that answers this very call.
   */
  lemma {:induction false} NoForeignPayload(calls: seq<Call>, unread: Bytes, items: seq<Item>, origin: seq<nat>, i: nat)
    requires WellFormed(calls) && AllLegal(items)
    requires Wire(items) == [] + (ReceivedIn(Serve([], calls)) + unread)
    requires FreshCorrelations(calls) && Answers(items, origin, calls)
    requires i < |Serve([], calls)| && Serve([], calls)[i].outcome.Some? && Serve([], calls)[i].outcome.value.Succeeded?
    ensures i < |items| && origin[i] == i
    ensures items[i].frame.msgType == WORKER_RESULT && items[i].frame.correlation == calls[i].request.correlation
    ensures Serve([], calls)[i].outcome.value.payload == items[i].frame.payload
  {
    OneFrameEach([], calls, unread, items);
    ServedCleanly([], calls);
    var e := Serve([], calls)[i];
    hide Serve, Wire;
    assert EndsCleanly(e, calls[i].request.correlation);
    assert Survives(e);
    assert items[i].frame.correlation == calls[i].request.correlation;
  }
}
