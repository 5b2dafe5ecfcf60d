/**
 Which observation decides a supervised call, and how. A call looks and looks again until something happens; the first
 round in which anything does gives the verdict, and every kind of happening has exactly one.
 */
module Verdicts {
  import opened Basics
  import opened Codec
  import opened Reader
  import opened Supervision

  /** What a response frame makes of the call to which it is the answer, or is not. */
  predicate Responds(f: Frame, correlation: U64, outcome: Option<WorkerOutcome>, gone: bool) {
    && (f.correlation != correlation ==> gone && outcome == Some(ProtocolFailure(CorrelationMismatch)))
    && (f.correlation == correlation && f.msgType == 201 ==> !gone && outcome == Some(Succeeded(f.payload)))
    && (f.correlation == correlation && f.msgType == 202 ==>
          && !gone
          && var key := Ascii("technical_failure");
             outcome == Some(if key in f.metadata then TechnicalFailure(f.metadata[key]) else ProtocolFailure(MissingText)))
    && (f.correlation == correlation && f.msgType != 201 && f.msgType != 202 ==>
          gone && outcome == Some(ProtocolFailure(UnexpectedType)))
  }

  /** The call ends without having taken a frame, and the process is terminated or found dead. */
  predicate Abandons(e: Ending, outcome: WorkerOutcome) {
    e.outcome == Some(outcome) && e.gone && e.consumed == None
  }

  predicate TimeIsUp(stopAt: Option<int>, now: int) {
    stopAt.Some? && stopAt.value <= now
  }

  // Waiting

  function FirstTurns(rounds: seq<ReadRound>): (turns: seq<Turn>)
    ensures |turns| == |rounds|
    ensures forall i :: 0 <= i < |rounds| ==> turns[i] == rounds[i].first
  {
    seq(|rounds|, i requires 0 <= i < |rounds| => rounds[i].first)
  }

  /** What the reader holds at the beginning of round `i` when nothing was delivered before. */
  function Held(buffer: Bytes, rounds: seq<ReadRound>, i: nat): Bytes
    requires i <= |rounds|
  {
    buffer + Received(FirstTurns(rounds[..i]))
  }

  /** A round in which nothing happens. */
  predicate Uneventful(held: Bytes, r: ReadRound, stopAt: Option<int>) {
    && TakeTurn(held, r.first).0 == Nothing
    && !r.stopping && !r.cancelled && !TimeIsUp(stopAt, r.now) && r.alive && !r.pollFails
  }

  /** What one look at the pipe decides, if it finds anything. */
  predicate LookDecides(look: TurnResult, correlation: U64, aliveOnError: bool, e: Ending) {
    match look
    case Delivered(f) => e.consumed == Some(f) && Responds(f, correlation, e.outcome, e.gone)
    case Raised(error) => Abandons(e, if aliveOnError then ProtocolFailure(BadResponse(error)) else Crashed)
    case Nothing => true
  }

  /**
   The verdict of a round in which something happens. A response that is there goes before everything; a stop goes before
   a cancellation, a cancellation before a timeout, and both look once more before they take effect.
   */
  predicate RoundDecides(held: Bytes, r: ReadRound, stopAt: Option<int>, correlation: U64, e: Ending) {
    var look := TakeTurn(held, r.first).0;
    if look != Nothing then LookDecides(look, correlation, r.aliveOnError, e)
    else if r.stopping then Abandons(e, Stopped)
    else if r.cancelled || TimeIsUp(stopAt, r.now) then
      var again := TakeTurn(held + Joined(r.first.chunks), r.again).0;
      if again != Nothing then LookDecides(again, correlation, r.aliveOnError, e)
      else Abandons(e, if r.cancelled then Cancelled else TimedOut)
    else if !r.alive then Abandons(e, Crashed)
    else r.pollFails && Abandons(e, ProtocolFailure(PollFailed))
  }

  lemma {:induction false} NothingKeeps(buffer: Bytes, t: Turn)
    ensures TakeTurn(buffer, t).0 == Nothing ==> TakeTurn(buffer, t).1 == buffer + Joined(t.chunks)
  {
    FilledJoins(buffer, t.chunks);
    hide FillBuffer, Parse, HeaderError, TotalLength;
  }

  lemma {:induction false} FilledJoins(buffer: Bytes, chunks: seq<Bytes>)
    ensures FillBuffer(buffer, chunks).Filled? ==> FillBuffer(buffer, chunks).buffer == buffer + Joined(chunks)
    decreases |chunks|
  {
    if chunks != [] {
      FilledJoins(buffer + chunks[0], chunks[1..]);
      Associative(buffer, chunks[0], Joined(chunks[1..]));
    } else {
      assert buffer + Joined(chunks) == buffer;
    }
  }

  lemma {:induction false} HeldStep(buffer: Bytes, rounds: seq<ReadRound>, i: nat)
    requires rounds != [] && i < |rounds|
    ensures Held(buffer, rounds, i + 1) == Held(buffer + Joined(rounds[0].first.chunks), rounds[1..], i)
  {
    var turns := FirstTurns(rounds[..i + 1]);
    assert turns[1..] == FirstTurns(rounds[1..][..i]);
    Associative(buffer, Joined(turns[0].chunks), Received(turns[1..]));
  }

  lemma {:induction false} HeldNone(buffer: Bytes, rounds: seq<ReadRound>)
    ensures Held(buffer, rounds, 0) == buffer
  {
    assert FirstTurns(rounds[..0]) == [];
  }

  /** The first round gives its verdict when anything happens in it, and changes nothing otherwise. */
  lemma {:induction false} FirstRound(buffer: Bytes, correlation: U64, stopAt: Option<int>, rounds: seq<ReadRound>, sent: nat)
    requires rounds != []
    ensures var e := AwaitFrom(buffer, correlation, stopAt, rounds, sent);
            if Uneventful(buffer, rounds[0], stopAt) then
              var later := AwaitFrom(buffer + Joined(rounds[0].first.chunks), correlation, stopAt, rounds[1..], sent);
              e.outcome == later.outcome && e.gone == later.gone && e.consumed == later.consumed
            else RoundDecides(buffer, rounds[0], stopAt, correlation, e)
  {
    NothingKeeps(buffer, rounds[0].first);
    hide TakeTurn, Joined;
  }

  /** Nothing happens in the first `i` rounds. */
  ghost predicate QuietBefore(buffer: Bytes, rounds: seq<ReadRound>, i: nat, stopAt: Option<int>)
    requires i <= |rounds|
  {
    forall j :: 0 <= j < i ==> Uneventful(Held(buffer, rounds, j), rounds[j], stopAt)
  }

  lemma {:induction false} QuietStep(buffer: Bytes, rounds: seq<ReadRound>, k: nat, stopAt: Option<int>)
    requires k < |rounds| && Uneventful(buffer, rounds[0], stopAt)
    requires QuietBefore(buffer + Joined(rounds[0].first.chunks), rounds[1..], k, stopAt)
    ensures QuietBefore(buffer, rounds, k + 1, stopAt)
  {
    hide Uneventful, Held, Joined;
    forall j | 0 <= j < k + 1
      ensures Uneventful(Held(buffer, rounds, j), rounds[j], stopAt)
    {
      if j == 0 {
        HeldNone(buffer, rounds);
      } else {
        HeldStep(buffer, rounds, j - 1);
        assert rounds[1..][j - 1] == rounds[j];
      }
    }
  }

  /** Round `i` gives the verdict, or there is none yet. */
  predicate VerdictIn(buffer: Bytes, rounds: seq<ReadRound>, i: nat, stopAt: Option<int>, correlation: U64, e: Ending)
    requires i <= |rounds|
  {
    if i == |rounds| then e.outcome == None && !e.gone && e.consumed == None
    else
      && !Uneventful(Held(buffer, rounds, i), rounds[i], stopAt)
      && RoundDecides(Held(buffer, rounds, i), rounds[i], stopAt, correlation, e)
  }

  lemma {:induction false} VerdictLater(buffer: Bytes, rounds: seq<ReadRound>, k: nat, stopAt: Option<int>, correlation: U64,
                                        e: Ending, later: Ending)
    requires rounds != [] && k < |rounds|
    requires VerdictIn(buffer + Joined(rounds[0].first.chunks), rounds[1..], k, stopAt, correlation, later)
    requires e.outcome == later.outcome && e.gone == later.gone && e.consumed == later.consumed
    ensures VerdictIn(buffer, rounds, k + 1, stopAt, correlation, e)
  {
    hide Uneventful, Held, Joined, TakeTurn, Answers;
    if k + 1 < |rounds| {
      HeldStep(buffer, rounds, k);
      assert rounds[1..][k] == rounds[k + 1];
    }
  }

  /** The first eventful round gives the verdict; while there is none the call goes on waiting. */
  lemma {:induction false} WaitingDecides(buffer: Bytes, correlation: U64, stopAt: Option<int>, rounds: seq<ReadRound>, sent: nat)
    returns (i: nat)
    ensures i <= |rounds| && QuietBefore(buffer, rounds, i, stopAt)
    ensures VerdictIn(buffer, rounds, i, stopAt, correlation, AwaitFrom(buffer, correlation, stopAt, rounds, sent))
    decreases |rounds|
  {
    i := 0;
    if rounds != [] {
      HeldNone(buffer, rounds);
      FirstRound(buffer, correlation, stopAt, rounds, sent);
      hide AwaitFrom, Uneventful, RoundDecides, Held, Joined;
      if Uneventful(buffer, rounds[0], stopAt) {
        var next := buffer + Joined(rounds[0].first.chunks);
        var k := WaitingDecides(next, correlation, stopAt, rounds[1..], sent);
        hide QuietBefore, VerdictIn;
        QuietStep(buffer, rounds, k, stopAt);
        VerdictLater(buffer, rounds, k, stopAt, correlation, AwaitFrom(buffer, correlation, stopAt, rounds, sent),
                     AwaitFrom(next, correlation, stopAt, rounds[1..], sent));
        i := k + 1;
      }
    }
  }

  // Sending

  /** How much of the request the first rounds have written. */
  function Written(rounds: seq<WriteRound>): nat {
    if rounds == [] then 0 else (if rounds[0].step.Wrote? then rounds[0].step.n else 0) + Written(rounds[1..])
  }

  /** A round of the writing loop that goes on to the next one. */
  predicate Continues(r: WriteRound, stopAt: Option<int>) {
    && !r.stopping && !r.cancelled && !TimeIsUp(stopAt, r.now) && r.alive
    && (r.step.Wrote? || r.step == WouldBlock(false))
  }

  /** The verdict of a round of the writing loop that does not go on. */
  function WriteVerdict(r: WriteRound, stopAt: Option<int>): WorkerOutcome {
    if r.stopping then Stopped
    else if r.cancelled then Cancelled
    else if TimeIsUp(stopAt, r.now) then TimedOut
    else if !r.alive then Crashed
    else if r.step.WouldBlock? then ProtocolFailure(PollFailed)
    else if r.step == WriteError(true) then ProtocolFailure(WriteFailed)
    else Crashed
  }

  /**
   The request is sent once the rounds have written all of it; until then the first round that does not go on gives the
   verdict.
   */
  lemma {:induction false} SendingDecides(total: nat, stopAt: Option<int>, rounds: seq<WriteRound>, offset: nat) returns (i: nat)
    requires offset <= total
    ensures i <= |rounds|
    ensures forall j :: 0 <= j < i ==> Continues(rounds[j], stopAt) && offset + Written(rounds[..j]) < total
    ensures var (sending, n) := SendFrom(total, offset, stopAt, rounds);
            if offset + Written(rounds[..i]) >= total then sending == Sent && n == total
            else if i == |rounds| then sending == SendPending
            else !Continues(rounds[i], stopAt) && sending == SendEnded(WriteVerdict(rounds[i], stopAt))
    decreases |rounds|
  {
    i := 0;
    assert Written(rounds[..0]) == 0;
    if offset < total && rounds != [] && Continues(rounds[0], stopAt) {
      var n := if rounds[0].step.Wrote? then rounds[0].step.n else 0;
      var next := offset + Min(n, total - offset);
      if offset + n >= total {
        i := 1;
        assert Written(rounds[..1]) == n + Written(rounds[..1][1..]);
      } else {
        var k := SendingDecides(total, stopAt, rounds[1..], next);
        i := k + 1;
        forall j | 0 <= j < i
          ensures Continues(rounds[j], stopAt) && offset + Written(rounds[..j]) < total
        {
          if j > 0 {
            assert rounds[..j][1..] == rounds[1..][..j - 1];
          }
        }
        assert rounds[..i][1..] == rounds[1..][..k];
      }
    }
  }

  // The whole call

  /**
   How every call ends. A dead worker and a request that cannot be encoded end it at once; then the first round of the
   writing loop that does not go on, if the request is not complete by then; then the first eventful round of the reading
   loop. A script without any of these leaves the call pending.
   */
  ghost predicate Decided(buffer: Bytes, c: Call, e: Ending)
    requires forall k :: k in c.keys ==> k in c.request.metadata
  {
    if !c.aliveAtStart then Abandons(e, Crashed)
    else if EncodeFrame(c.request, c.keys).Err? then
      Abandons(e, ProtocolFailure(BadRequest(EncodeFrame(c.request, c.keys).error)))
    else
      var total := |EncodeFrame(c.request, c.keys).value|;
      exists i: nat ::
        && i <= |c.sends|
        && (forall j :: 0 <= j < i ==> Continues(c.sends[j], c.stopAt) && Written(c.sends[..j]) < total)
        && (if Written(c.sends[..i]) >= total then
              exists k: nat ::
                && k <= |c.waits| && QuietBefore(buffer, c.waits, k, c.stopAt)
                && VerdictIn(buffer, c.waits, k, c.stopAt, c.request.correlation, e)
            else if i == |c.sends| then e.outcome == None && !e.gone && e.consumed == None
            else !Continues(c.sends[i], c.stopAt) && Abandons(e, WriteVerdict(c.sends[i], c.stopAt)))
  }

  lemma {:induction false} CallDecides(buffer: Bytes, c: Call)
    requires forall k :: k in c.keys ==> k in c.request.metadata
    ensures Decided(buffer, c, Execute(buffer, c))
  {
    if c.aliveAtStart && EncodeFrame(c.request, c.keys).Ok? {
      var total := |EncodeFrame(c.request, c.keys).value|;
      var i := SendingDecides(total, c.stopAt, c.sends, 0);
      var k := WaitingDecides(buffer, c.request.correlation, c.stopAt, c.waits, total);
      hide EncodeFrame, SendFrom, AwaitFrom, QuietBefore, VerdictIn, Continues, Written, WriteVerdict;
      assert i <= |c.sends| && k <= |c.waits|;
    }
  }

  /**
   A call that takes a frame answers as that frame says: with its own correlation id a RESULT succeeds with its payload
   and a FAILURE fails with its text, and the worker stays; anything else fails and ends the worker.
   */
  lemma {:induction false} ResponseDecides(buffer: Bytes, c: Call)
    requires forall k :: k in c.keys ==> k in c.request.metadata
    ensures var e := Execute(buffer, c);
            e.consumed.Some? ==> Responds(e.consumed.value, c.request.correlation, e.outcome, e.gone)
  {
    if c.aliveAtStart && EncodeFrame(c.request, c.keys).Ok? {
      var total := |EncodeFrame(c.request, c.keys).value|;
      SendIsComplete(total, 0, c.stopAt, c.sends);
      var k := WaitingDecides(buffer, c.request.correlation, c.stopAt, c.waits, total);
      hide EncodeFrame, SendFrom, AwaitFrom, Answers, TakeTurn, Uneventful, Held, QuietBefore;
    }
  }
}
