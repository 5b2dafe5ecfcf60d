/**
 The incremental reader of a worker's response pipe. A turn is one call: the chunks that its `read` calls returned and
 what ended it. The theorems hold for every split of the data into chunks and turns.
 */
module Reader {
  import opened Basics
  import opened BigEndian
  import opened Codec

  const CHUNK := 8192
  const BUDGET := 65536
  const MAX_BUFFER := HEADER + MAX_METADATA + MAX_PAYLOAD

  datatype TurnEnd = BudgetSpent | Drained | Closed | Failed

  datatype Turn = Turn(chunks: seq<Bytes>, end: TurnEnd)

  datatype TurnResult = Nothing | Delivered(frame: Frame) | Raised(error: Error)

  function Joined(chunks: seq<Bytes>): Bytes {
    if chunks == [] then [] else chunks[0] + Joined(chunks[1..])
  }

  /** What the operating system can return: non-empty chunks within the request, up to the budget of the turn. */
  ghost predicate Possible(t: Turn) {
    && (forall i :: 0 <= i < |t.chunks| ==> 1 <= |t.chunks[i]| <= CHUNK)
    && |Joined(t.chunks)| <= BUDGET
    && (t.end.BudgetSpent? <==> |Joined(t.chunks)| == BUDGET)
  }

  datatype Filling = Filled(buffer: Bytes) | Overflow(buffer: Bytes)

  function Min(a: int, b: int): int {
    if a < b then a else b
  }

  function FillBuffer(buffer: Bytes, chunks: seq<Bytes>): Filling
    decreases |chunks|
  {
    if chunks == [] then Filled(buffer)
    else if |chunks[0]| > MAX_BUFFER - Min(|buffer|, MAX_BUFFER) then Overflow(buffer)
    else FillBuffer(buffer + chunks[0], chunks[1..])
  }

  /** What stays in the buffer; the frame is taken out before its metadata is decoded. */
  function Left(b: Bytes): Bytes {
    match Parse(b)
    case Incomplete => b
    case Complete(_, rest) => rest
    case Bad(_) => if HeaderError(b).None? then b[TotalLength(b)..] else b
  }

  function Answer(b: Bytes): TurnResult {
    match Parse(b)
    case Incomplete => Nothing
    case Bad(e) => Raised(e)
    case Complete(f, _) => Delivered(f)
  }

  function TakeTurn(buffer: Bytes, t: Turn): (TurnResult, Bytes) {
    match FillBuffer(buffer, t.chunks)
    case Overflow(b) => (Raised(BufferOverflow), b)
    case Filled(b) =>
      match t.end
      case Closed => (Raised(if b == [] then PeerClosed else PeerClosedInFrame), b)
      case Failed => (Raised(ReadFailed), b)
      case _ => (Answer(b), Left(b))
  }

  class IncrementalFrameReader {
    var buffer: Bytes

    constructor ()
      ensures buffer == []
    {
      buffer := [];
    }

    method ReadAvailable(t: Turn) returns (r: TurnResult)
      modifies this
      ensures (r, buffer) == TakeTurn(old(buffer), t)
    {
      for i := 0 to |t.chunks|
        invariant FillBuffer(buffer, t.chunks[i..]) == FillBuffer(old(buffer), t.chunks)
      {
        var chunk := t.chunks[i];
        assert t.chunks[i..][0] == chunk && t.chunks[i..][1..] == t.chunks[i + 1..];
        if |chunk| > MAX_BUFFER - Min(|buffer|, MAX_BUFFER) {
          return Raised(BufferOverflow);
        }
        buffer := buffer + chunk;
      }
      hide FillBuffer;
      match t.end
      case Closed =>
        r := Raised(if buffer == [] then PeerClosed else PeerClosedInFrame);
      case Failed =>
        r := Raised(ReadFailed);
      case _ =>
        r := Answer(buffer);
        buffer := Left(buffer);
    }
  }

  /** A session: repeated calls until one throws. */
  datatype Session = Session(frames: seq<Frame>, failure: Option<Error>, buffer: Bytes)

  function RunTurns(buffer: Bytes, turns: seq<Turn>): Session
    decreases |turns|
  {
    if turns == [] then Session([], None, buffer)
    else
      var (r, b) := TakeTurn(buffer, turns[0]);
      match r
      case Raised(e) => Session([], Some(e), b)
      case Nothing => RunTurns(b, turns[1..])
      case Delivered(f) =>
        var s := RunTurns(b, turns[1..]);
        s.(frames := [f] + s.frames)
  }

  function Received(turns: seq<Turn>): Bytes {
    if turns == [] then [] else Joined(turns[0].chunks) + Received(turns[1..])
  }

  /** The turns of a session in which the peer stays and no read fails. */
  predicate Orderly(turns: seq<Turn>) {
    forall i :: 0 <= i < |turns| ==> turns[i].end.BudgetSpent? || turns[i].end.Drained?
  }

  // What the peer writes

  datatype Item = Item(frame: Frame, keys: seq<Bytes>)

  ghost predicate AllLegal(items: seq<Item>) {
    forall i :: 0 <= i < |items| ==> Legal(items[i].frame, items[i].keys)
  }

  ghost function Wire(items: seq<Item>): Bytes
    requires AllLegal(items)
  {
    if items == [] then [] else Encoded(items[0].frame, items[0].keys) + Wire(items[1..])
  }

  function Frames(items: seq<Item>): seq<Frame> {
    seq(|items|, i requires 0 <= i < |items| => items[i].frame)
  }

  lemma {:induction false} FramesSplit(items: seq<Item>, n: nat)
    requires n <= |items|
    ensures Frames(items) == Frames(items[..n]) + Frames(items[n..])
  {
  }

  lemma {:induction false} FramesCons(items: seq<Item>)
    requires items != []
    ensures Frames(items) == [items[0].frame] + Frames(items[1..])
  {
  }

  // The bound of the buffer

  /** The check of each chunk amounts to one bound on what the buffer would hold after the turn. */
  lemma {:induction false} FillMeaning(buffer: Bytes, chunks: seq<Bytes>)
    requires |buffer| <= MAX_BUFFER
    ensures FillBuffer(buffer, chunks).Overflow? <==> |buffer| + |Joined(chunks)| > MAX_BUFFER
    ensures FillBuffer(buffer, chunks).Filled? ==> FillBuffer(buffer, chunks).buffer == buffer + Joined(chunks)
    ensures |FillBuffer(buffer, chunks).buffer| <= MAX_BUFFER
    decreases |chunks|
  {
    if chunks != [] && |chunks[0]| <= MAX_BUFFER - |buffer| {
      FillMeaning(buffer + chunks[0], chunks[1..]);
      assert buffer + chunks[0] + Joined(chunks[1..]) == buffer + Joined(chunks);
    }
  }

  lemma {:induction false} LeftShrinks(b: Bytes)
    ensures |Left(b)| <= |b|
  {
  }

  /**
   What one turn does, whatever is in the pipe: a backlog over the bound and a read that fails or ends are reported before
   anything in the buffer; a frame is taken out before its metadata is decoded, and nothing else leaves the buffer.
   */
  lemma {:induction false} TurnMeaning(buffer: Bytes, t: Turn)
    requires |buffer| <= 28 + 2 * 0x10_0000
    ensures var (r, b) := TakeTurn(buffer, t); var held := buffer + Joined(t.chunks);
            if |held| > 28 + 2 * 0x10_0000 then r == Raised(BufferOverflow)
            else
              match t.end
              case Closed => r == Raised(if held == [] then PeerClosed else PeerClosedInFrame) && b == held
              case Failed => r == Raised(ReadFailed) && b == held
              case _ =>
                match Parse(held)
                case Incomplete => r == Nothing && b == held
                case Complete(f, rest) => r == Delivered(f) && b == rest
                case Bad(e) =>
                  && r == Raised(e) && |held| >= 28
                  && b == if e == MalformedMetadata then held[28 + GetU32(held[16..20]) + FromBe(held[20..28])..] else held
  {
    FillMeaning(buffer, t.chunks);
    var held := buffer + Joined(t.chunks);
    BadParse(held);
    hide FillBuffer, Parse, HeaderError, FromBe, GetU32, Joined;
  }

  /** Why a parse fails: the header is wrong, or the metadata of a frame that is there. */
  lemma {:induction false} BadParse(b: Bytes)
    ensures Parse(b).Bad? ==>
              && |b| >= HEADER && (Parse(b).error == MalformedMetadata <==> HeaderError(b).None?)
              && (HeaderError(b).None? ==> TotalLength(b) <= |b|)
  {
    if |b| >= HEADER && HeaderError(b).None? && TotalLength(b) <= |b| {
      OnlyMalformed(b[HEADER..HEADER + MetadataLength(b)], 0, map[]);
    }
    hide FromBe, GetU16, GetU32, DecodeFrom;
  }

  lemma {:induction false} OnlyMalformed(encoded: Bytes, pos: nat, acc: Metadata)
    requires pos <= |encoded| + 1
    ensures DecodeFrom(encoded, pos, acc).Err? ==> DecodeFrom(encoded, pos, acc).error == MalformedMetadata
    decreases |encoded| + 1 - pos
  {
    if pos < |encoded| {
      var end := Find(encoded, LF, pos);
      var next := AddLine(acc, encoded[pos..end]);
      if next.Ok? {
        OnlyMalformed(encoded, end + 1, next.value);
      }
    }
  }

  // One turn against the wire

  lemma {:induction false} SplitPrefix(e: Bytes, w: Bytes, b: Bytes, p: Bytes)
    requires e + w == b + p
    ensures |b| < |e| ==> b == e[..|b|]
    ensures |b| >= |e| ==> b == e + b[|e|..] && w == b[|e|..] + p
  {
    if |b| < |e| {
      assert b == (b + p)[..|b|] == (e + w)[..|b|];
    } else {
      assert e == (e + w)[..|e|] == (b + p)[..|e|] == b[..|e|];
      assert w == (e + w)[|e|..] == (b + p)[|e|..];
    }
  }

  /** What the buffer starts with when it holds the beginning of what legal frames were written. */
  lemma {:induction false} ParseWire(b: Bytes, pending: Bytes, items: seq<Item>)
    requires AllLegal(items) && Wire(items) == b + pending
    ensures items == [] ==> Answer(b) == Nothing && Left(b) == b
    ensures items != [] && |b| < |Encoded(items[0].frame, items[0].keys)| ==> Answer(b) == Nothing && Left(b) == b
    ensures items != [] && |b| >= |Encoded(items[0].frame, items[0].keys)| ==>
              Answer(b) == Delivered(items[0].frame) && Wire(items[1..]) == Left(b) + pending
  {
    if items != [] {
      var f, keys := items[0].frame, items[0].keys;
      var e := Encoded(f, keys);
      assert Legal(f, keys);
      SplitPrefix(e, Wire(items[1..]), b, pending);
      hide Encoded, Legal, Parse, Wire;
      if |b| < |e| {
        ParsePrefix(f, keys, |b|);
      } else {
        ParseEncoded(f, keys, b[|e|..]);
      }
    }
  }

  /** The first turn of a session on the wire, when it does not overflow. */
  lemma {:induction false} TurnOnWire(buffer: Bytes, t: Turn, unread: Bytes, items: seq<Item>)
    requires |buffer| <= MAX_BUFFER && (t.end.BudgetSpent? || t.end.Drained?)
    requires AllLegal(items) && Wire(items) == buffer + Joined(t.chunks) + unread
    ensures var (r, b) := TakeTurn(buffer, t);
            && |b| <= MAX_BUFFER
            && (|buffer| + |Joined(t.chunks)| > MAX_BUFFER <==> r == Raised(BufferOverflow))
            && (|buffer| + |Joined(t.chunks)| <= MAX_BUFFER ==>
                  || (&& r == Nothing && Wire(items) == b + unread && |b| == |buffer| + |Joined(t.chunks)|
                      && (items != [] ==> |b| < |Encoded(items[0].frame, items[0].keys)|))
                  || (&& items != [] && r == Delivered(items[0].frame) && Wire(items[1..]) == b + unread
                      && |b| == |buffer| + |Joined(t.chunks)| - |Encoded(items[0].frame, items[0].keys)|))
  {
    FillMeaning(buffer, t.chunks);
    if |buffer| + |Joined(t.chunks)| <= MAX_BUFFER {
      ParseWire(buffer + Joined(t.chunks), unread, items);
      LeftShrinks(buffer + Joined(t.chunks));
      hide FillBuffer, Answer, Left, Wire, Joined, Encoded;
    }
  }

  /** How many bytes each turn brings in. */
  function Arrivals(turns: seq<Turn>): seq<nat> {
    if turns == [] then [] else [|Joined(turns[0].chunks)|] + Arrivals(turns[1..])
  }

  /** How long each written frame is. */
  ghost function Lengths(items: seq<Item>): seq<nat>
    requires AllLegal(items)
  {
    if items == [] then [] else [|Encoded(items[0].frame, items[0].keys)|] + Lengths(items[1..])
  }

  /**
   Whether the backlog stays within the bound, by counting bytes alone: a turn adds what arrives in it to what is held,
   and takes one frame away if a whole one is there.
   */
  predicate BacklogFits(held: nat, arrivals: seq<nat>, lengths: seq<nat>)
    decreases |arrivals|
  {
    arrivals != [] ==>
      var h := held + arrivals[0];
      && h <= MAX_BUFFER
      && if lengths != [] && lengths[0] <= h then BacklogFits(h - lengths[0], arrivals[1..], lengths[1..])
         else BacklogFits(h, arrivals[1..], lengths)
  }

  lemma {:induction false} BacklogStep(held: nat, arrival: nat, arrivals: seq<nat>, lengths: seq<nat>)
    ensures BacklogFits(held, [arrival] + arrivals, lengths) <==>
              var h := held + arrival;
              && h <= MAX_BUFFER
              && if lengths != [] && lengths[0] <= h then BacklogFits(h - lengths[0], arrivals, lengths[1..])
                 else BacklogFits(h, arrivals, lengths)
  {
    assert ([arrival] + arrivals)[1..] == arrivals;
  }

  lemma {:induction false} LengthsStep(items: seq<Item>)
    requires AllLegal(items) && items != []
    ensures Lengths(items) != [] && Lengths(items)[0] == |Encoded(items[0].frame, items[0].keys)|
    ensures Lengths(items)[1..] == Lengths(items[1..])
  {
    hide Encoded;
  }

  /**
   However the wire is cut into chunks and turns, the session delivers a prefix of the frames that were written, in
   order and once each, and keeps exactly the undelivered bytes. Its only possible failure is the bound of the buffer,
   and it fails so exactly when the count of arrivals and frame lengths says that the backlog exceeds that bound.
   */
  lemma {:induction false} ExactDelivery(buffer: Bytes, turns: seq<Turn>, unread: Bytes, items: seq<Item>)
    requires |buffer| <= MAX_BUFFER && Orderly(turns)
    requires AllLegal(items) && Wire(items) == buffer + (Received(turns) + unread)
    ensures var s := RunTurns(buffer, turns); var n := |s.frames|;
            && n <= |items| && s.frames == Frames(items[..n])
            && (s.failure == None <==> BacklogFits(|buffer|, Arrivals(turns), Lengths(items)))
            && (s.failure == None || s.failure == Some(BufferOverflow))
            && (s.failure == None ==> Wire(items[n..]) == s.buffer + unread && |s.buffer| <= MAX_BUFFER)
  {
    SessionOnWire(buffer, turns, unread, items);
    hide RunTurns, BacklogFits, Arrivals, Lengths, Wire;
  }

  ghost predicate SessionOk(s: Session, fits: bool, unread: Bytes, items: seq<Item>)
    requires AllLegal(items)
  {
    var n := |s.frames|;
    && n <= |items| && s.frames == Frames(items[..n])
    && (s.failure == None <==> fits)
    && (s.failure == None || s.failure == Some(BufferOverflow))
    && (s.failure == None ==> Wire(items[n..]) == s.buffer + unread && |s.buffer| <= MAX_BUFFER)
  }

  lemma {:induction false} ArrivalsStep(turns: seq<Turn>)
    requires turns != []
    ensures Arrivals(turns) == [|Joined(turns[0].chunks)|] + Arrivals(turns[1..])
  {
    hide Joined;
  }

  /** The count of the backlog follows the first turn. */
  lemma {:induction false} CountFollows(buffer: Bytes, turns: seq<Turn>, later: Bytes, items: seq<Item>)
    requires turns != [] && |buffer| <= MAX_BUFFER && (turns[0].end.BudgetSpent? || turns[0].end.Drained?)
    requires AllLegal(items) && Wire(items) == buffer + Joined(turns[0].chunks) + later
    ensures var (r, b) := TakeTurn(buffer, turns[0]); var rest := Arrivals(turns[1..]);
            BacklogFits(|buffer|, Arrivals(turns), Lengths(items)) <==>
              match r
              case Raised(_) => false
              case Nothing => BacklogFits(|b|, rest, Lengths(items))
              case Delivered(_) => items != [] && BacklogFits(|b|, rest, Lengths(items[1..]))
  {
    hide TakeTurn, Wire, Joined, BacklogFits, Arrivals, Encoded, AllLegal;
    TurnOnWire(buffer, turns[0], later, items);
    BacklogStep(|buffer|, |Joined(turns[0].chunks)|, Arrivals(turns[1..]), Lengths(items));
    ArrivalsStep(turns);
    if items != [] {
      LengthsStep(items);
    } else {
      assert Lengths(items) == [];
    }
    hide Lengths;
  }

  lemma {:induction false} SessionOnWire(buffer: Bytes, turns: seq<Turn>, unread: Bytes, items: seq<Item>)
    requires |buffer| <= MAX_BUFFER && Orderly(turns)
    requires AllLegal(items) && Wire(items) == buffer + (Received(turns) + unread)
    ensures SessionOk(RunTurns(buffer, turns), BacklogFits(|buffer|, Arrivals(turns), Lengths(items)), unread, items)
    decreases |turns|
  {
    if turns == [] {
      NothingReceived(buffer, unread, items);
    } else {
      var later := Received(turns[1..]) + unread;
      Regroup(buffer, Joined(turns[0].chunks), Received(turns[1..]), unread);
      hide TakeTurn, Wire, Joined, SessionOk, RunTurns, BacklogFits, Arrivals, Lengths, Encoded, AllLegal;
      TurnOnWire(buffer, turns[0], later, items);
      CountFollows(buffer, turns, later, items);
      RunStep(buffer, turns);
      var (r, b) := TakeTurn(buffer, turns[0]);
      if r == Nothing {
        SessionOnWire(b, turns[1..], unread, items);
      } else if r.Delivered? {
        TailIsLegal(items);
        SessionOnWire(b, turns[1..], unread, items[1..]);
        DeliverOne(items, RunTurns(b, turns[1..]), BacklogFits(|b|, Arrivals(turns[1..]), Lengths(items[1..])), unread);
      } else {
        FailsAtOnce(b, unread, items);
      }
    }
  }

  lemma {:induction false} TailIsLegal(items: seq<Item>)
    requires AllLegal(items) && items != []
    ensures AllLegal(items[1..])
  {
    hide Legal;
  }

  lemma {:induction false} NothingReceived(buffer: Bytes, unread: Bytes, items: seq<Item>)
    requires |buffer| <= MAX_BUFFER && AllLegal(items) && Wire(items) == buffer + (Received([]) + unread)
    ensures SessionOk(RunTurns(buffer, []), BacklogFits(|buffer|, Arrivals([]), Lengths(items)), unread, items)
  {
    hide Wire, Lengths;
    assert [] + unread == unread;
    assert items[0..] == items;
  }

  lemma {:induction false} Regroup(a: Bytes, b: Bytes, c: Bytes, d: Bytes)
    ensures a + (b + c + d) == a + b + (c + d)
  {
  }

  lemma {:induction false} FailsAtOnce(b: Bytes, unread: Bytes, items: seq<Item>)
    requires AllLegal(items)
    ensures SessionOk(Session([], Some(BufferOverflow), b), false, unread, items)
  {
  }

  lemma {:induction false} DeliverOne(items: seq<Item>, s: Session, fits: bool, unread: Bytes)
    requires AllLegal(items) && items != [] && SessionOk(s, fits, unread, items[1..])
    ensures SessionOk(s.(frames := [items[0].frame] + s.frames), fits, unread, items)
  {
    hide Wire;
    var n := |s.frames|;
    assert items[..n + 1] == [items[0]] + items[1..][..n];
    assert [items[0].frame] + s.frames == Frames(items[..n + 1]);
    assert items[1..][n..] == items[n + 1..];
  }

  /** Turns in which nothing arrives. */
  function IdleTurns(n: nat): (turns: seq<Turn>)
    ensures |turns| == n
  {
    seq(n, _ => Turn([], Drained))
  }

  /** Once everything has arrived, as many further turns as there are frames empty the buffer; more do no harm. */
  lemma {:induction false} Drain(buffer: Bytes, items: seq<Item>, n: nat)
    requires |buffer| <= MAX_BUFFER && AllLegal(items) && Wire(items) == buffer && |items| <= n
    ensures RunTurns(buffer, IdleTurns(n)) == Session(Frames(items), None, [])
    decreases n
  {
    hide TakeTurn, AllLegal;
    if n == 0 {
      assert RunTurns(buffer, []) == Session([], None, []);
    } else {
      hide Wire, Frames, IdleTurns, RunTurns;
      IdleFirst(n);
      IdleOnWire(buffer, items);
      RunStep(buffer, IdleTurns(n));
      if items == [] {
        Drain(buffer, items, n - 1);
      } else {
        TailIsLegal(items);
        Drain(TakeTurn(buffer, Turn([], Drained)).1, items[1..], n - 1);
        FramesCons(items);
      }
    }
  }

  lemma {:induction false} IdleFirst(n: nat)
    requires n > 0
    ensures IdleTurns(n)[0] == Turn([], Drained) && IdleTurns(n)[1..] == IdleTurns(n - 1)
  {
  }

  lemma {:induction false} IdleOnWire(buffer: Bytes, items: seq<Item>)
    requires |buffer| <= MAX_BUFFER && AllLegal(items) && Wire(items) == buffer
    ensures var (r, b) := TakeTurn(buffer, Turn([], Drained));
            && |b| <= MAX_BUFFER
            && (items == [] ==> r == Nothing && b == buffer)
            && (items != [] ==> r == Delivered(items[0].frame) && Wire(items[1..]) == b)
  {
    assert buffer + [] == buffer;
    ParseWire(buffer, [], items);
    LeftShrinks(buffer);
    assert Left(buffer) + [] == Left(buffer);
    if items != [] {
      assert Wire(items) == Encoded(items[0].frame, items[0].keys) + Wire(items[1..]);
    }
    hide Answer, Left, Parse, Encoded, Wire;
  }

  /** A session, one turn at a time. */
  function Continue(r: TurnResult, b: Bytes, later: Session): Session {
    match r
    case Raised(e) => Session([], Some(e), b)
    case Nothing => later
    case Delivered(f) => later.(frames := [f] + later.frames)
  }

  lemma {:induction false} RunStep(buffer: Bytes, turns: seq<Turn>)
    requires turns != []
    ensures var (r, b) := TakeTurn(buffer, turns[0]); RunTurns(buffer, turns) == Continue(r, b, RunTurns(b, turns[1..]))
  {
    hide TakeTurn;
  }

  /** Two sessions, one after the other. */
  function Then(s: Session, t: Session): Session {
    t.(frames := s.frames + t.frames)
  }

  lemma {:induction false} ContinueThen(r: TurnResult, b: Bytes, s: Session, t: Session)
    requires !r.Raised?
    ensures Continue(r, b, Then(s, t)) == Then(Continue(r, b, s), t)
    ensures Continue(r, b, s).failure == s.failure && Continue(r, b, s).buffer == s.buffer
  {
    if r.Delivered? {
      assert [r.frame] + (s.frames + t.frames) == [r.frame] + s.frames + t.frames;
    }
  }

  lemma {:induction false} RunAppend(buffer: Bytes, turns: seq<Turn>, more: seq<Turn>)
    requires RunTurns(buffer, turns).failure == None
    ensures var s := RunTurns(buffer, turns); RunTurns(buffer, turns + more) == Then(s, RunTurns(s.buffer, more))
    decreases |turns|
  {
    if turns == [] {
      assert turns + more == more;
      assert [] + RunTurns(buffer, more).frames == RunTurns(buffer, more).frames;
    } else {
      assert (turns + more)[0] == turns[0] && (turns + more)[1..] == turns[1..] + more;
      RunStep(buffer, turns);
      RunStep(buffer, turns + more);
      var (r, b) := TakeTurn(buffer, turns[0]);
      assert !r.Raised?;
      hide RunTurns, TakeTurn, Then, Continue;
      var s := RunTurns(b, turns[1..]);
      ContinueThen(r, b, s, RunTurns(s.buffer, more));
      RunAppend(b, turns[1..], more);
    }
  }

  /** Every frame that was written is delivered, exactly once and in order, when the backlog stays within the bound. */
  lemma {:induction false} FullDelivery(turns: seq<Turn>, items: seq<Item>)
    requires Orderly(turns) && AllLegal(items) && Wire(items) == Received(turns)
    requires BacklogFits(0, Arrivals(turns), Lengths(items))
    ensures RunTurns([], turns + IdleTurns(|items|)) == Session(Frames(items), None, [])
  {
    assert Received(turns) + [] == Received(turns) && [] + Received(turns) == Received(turns);
    ExactDelivery([], turns, [], items);
    var s := RunTurns([], turns);
    var n := |s.frames|;
    assert s.buffer + [] == s.buffer;
    FramesSplit(items, n);
    hide Wire, Frames, RunTurns, IdleTurns, BacklogFits, Arrivals, Lengths;
    RunAppend([], turns, IdleTurns(|items|));
    Drain(s.buffer, items[n..], |items|);
  }

  /** The blocking reader: `read_frame` again and again until the stream ends or a frame is refused. */
  function Blocking(stream: Bytes): seq<Frame>
    decreases |stream|
  {
    match Parse(stream)
    case Complete(f, rest) => [f] + Blocking(rest)
    case _ => []
  }

  lemma {:induction false} BlockingOnWire(items: seq<Item>)
    requires AllLegal(items)
    ensures Blocking(Wire(items)) == Frames(items)
    decreases |items|
  {
    if items != [] {
      assert Legal(items[0].frame, items[0].keys);
      ParseEncoded(items[0].frame, items[0].keys, Wire(items[1..]));
      FramesCons(items);
      hide Parse, Encoded, Frames;
      BlockingOnWire(items[1..]);
    }
  }

  /** Chunks and turns make no difference: the session delivers what blocking reads of the same bytes deliver. */
  lemma {:induction false} SameAsBlocking(turns: seq<Turn>, items: seq<Item>)
    requires Orderly(turns) && AllLegal(items) && Wire(items) == Received(turns)
    requires BacklogFits(0, Arrivals(turns), Lengths(items))
    ensures RunTurns([], turns + IdleTurns(|items|)).frames == Blocking(Received(turns))
  {
    FullDelivery(turns, items);
    BlockingOnWire(items);
  }

  // When the backlog fits

  function Sum(counts: seq<nat>): nat {
    if counts == [] then 0 else counts[0] + Sum(counts[1..])
  }

  lemma {:induction false} BoundedBacklog(held: nat, arrivals: seq<nat>, lengths: seq<nat>)
    requires held + Sum(arrivals) <= MAX_BUFFER
    ensures BacklogFits(held, arrivals, lengths)
    decreases |arrivals|
  {
    if arrivals != [] {
      var h := held + arrivals[0];
      if lengths != [] && lengths[0] <= h {
        BoundedBacklog(h - lengths[0], arrivals[1..], lengths[1..]);
      } else {
        BoundedBacklog(h, arrivals[1..], lengths);
      }
    }
  }

  lemma {:induction false} ArrivalsAddUp(turns: seq<Turn>)
    ensures Sum(Arrivals(turns)) == |Received(turns)|
  {
    if turns != [] {
      ArrivalsAddUp(turns[1..]);
      assert Arrivals(turns)[1..] == Arrivals(turns[1..]);
    }
  }

  /** A single legal frame never trips the bound, even the largest one, whatever else is counted with it. */
  lemma {:induction false} OneFrameFits(f: Frame, keys: seq<Bytes>, turns: seq<Turn>, lengths: seq<nat>)
    requires Legal(f, keys) && Received(turns) <= Encoded(f, keys)
    ensures BacklogFits(0, Arrivals(turns), lengths)
  {
    assert Encoded(f, keys) + [] == Encoded(f, keys);
    EncodedShape(f, keys, Encoded(f, keys), []);
    ArrivalsAddUp(turns);
    BoundedBacklog(0, Arrivals(turns), lengths);
  }

  // Where the bound does fail: many small frames at once

  const LAST_CORRELATION := 0x1_0000_0000_0000_0000

  /** A legal frame of 28 bytes. */
  function TinyItem(correlation: U64): Item {
    Item(Frame(201, correlation, map[], []), [])
  }

  /** Tiny frames with successive correlation ids. */
  function TinyItems(first: nat, n: nat): (items: seq<Item>)
    requires first + n <= LAST_CORRELATION
    ensures |items| == n
  {
    seq(n, i requires 0 <= i < n => TinyItem(first + i))
  }

  lemma {:induction false} TinyIsLegal(correlation: U64)
    ensures Legal(TinyItem(correlation).frame, []) && |Encoded(TinyItem(correlation).frame, [])| == HEADER
  {
  }

  function Repeat(count: nat, n: nat): (counts: seq<nat>)
    ensures |counts| == n
  {
    if n == 0 then [] else [count] + Repeat(count, n - 1)
  }

  lemma {:induction false} TinyAreLegal(first: nat, n: nat)
    requires first + n <= LAST_CORRELATION
    ensures AllLegal(TinyItems(first, n))
  {
    forall i | 0 <= i < n
      ensures Legal(TinyItems(first, n)[i].frame, TinyItems(first, n)[i].keys)
    {
      TinyIsLegal(first + i);
    }
  }

  lemma {:induction false} TinyTail(first: nat, n: nat)
    requires first + n <= LAST_CORRELATION && n > 0
    ensures TinyItems(first, n)[0] == TinyItem(first) && TinyItems(first, n)[1..] == TinyItems(first + 1, n - 1)
  {
  }

  lemma {:induction false} TinyLengths(first: nat, n: nat)
    requires first + n <= LAST_CORRELATION && AllLegal(TinyItems(first, n))
    ensures Lengths(TinyItems(first, n)) == Repeat(HEADER, n)
    decreases n
  {
    if n > 0 {
      var items := TinyItems(first, n);
      TinyTail(first, n);
      TinyIsLegal(first);
      hide Encoded, Legal, TinyItems, TinyItem;
      TinyLengths(first + 1, n - 1);
      LengthsStep(items);
      hide AllLegal, Lengths;
      assert Lengths(items) == [Lengths(items)[0]] + Lengths(items)[1..];
    }
  }

  lemma {:induction false} WireLength(items: seq<Item>)
    requires AllLegal(items)
    ensures |Wire(items)| == Sum(Lengths(items))
  {
    hide Encoded, Legal;
    if items != [] {
      LengthsStep(items);
      WireLength(items[1..]);
    }
  }

  lemma {:induction false} SumRepeat(count: nat, n: nat)
    ensures Sum(Repeat(count, n)) == count * n
  {
    if n > 0 {
      SumRepeat(count, n - 1);
      assert Repeat(count, n)[1..] == Repeat(count, n - 1);
    }
  }

  lemma {:induction false} TinyWire(first: nat, n: nat)
    requires first + n <= LAST_CORRELATION
    ensures AllLegal(TinyItems(first, n))
    ensures |Wire(TinyItems(first, n))| == HEADER * n && Lengths(TinyItems(first, n)) == Repeat(HEADER, n)
  {
    TinyAreLegal(first, n);
    TinyLengths(first, n);
    WireLength(TinyItems(first, n));
    SumRepeat(HEADER, n);
    hide TinyItems, Wire, Lengths, Repeat, Sum;
  }

  /** A full turn: eight chunks, taken from the front of what is pending. */
  function FullTurn(pending: Bytes): Turn
    requires |pending| >= BUDGET
  {
    Turn([pending[..8192], pending[8192..16384], pending[16384..24576], pending[24576..32768],
          pending[32768..40960], pending[40960..49152], pending[49152..57344], pending[57344..65536]], BudgetSpent)
  }

  function FullTurns(pending: Bytes, n: nat): (turns: seq<Turn>)
    requires |pending| >= BUDGET * n
    ensures |turns| == n && Orderly(turns)
  {
    if n == 0 then [] else [FullTurn(pending)] + FullTurns(pending[BUDGET..], n - 1)
  }

  lemma {:induction false} FullTurnIsPossible(pending: Bytes)
    requires |pending| >= BUDGET
    ensures Joined(FullTurn(pending).chunks) == pending[..BUDGET] && Possible(FullTurn(pending))
  {
    var c := FullTurn(pending).chunks;
    assert Joined(c[8..]) == [];
    assert Joined(c[7..]) == c[7] + Joined(c[8..]) == pending[57344..65536];
    assert Joined(c[6..]) == c[6] + Joined(c[7..]) == pending[49152..65536];
    assert Joined(c[5..]) == c[5] + Joined(c[6..]) == pending[40960..65536];
    assert Joined(c[4..]) == c[4] + Joined(c[5..]) == pending[32768..65536];
    assert Joined(c[3..]) == c[3] + Joined(c[4..]) == pending[24576..65536];
    assert Joined(c[2..]) == c[2] + Joined(c[3..]) == pending[16384..65536];
    assert Joined(c[1..]) == c[1] + Joined(c[2..]) == pending[8192..65536];
    assert c[0..] == c && Joined(c) == c[0] + Joined(c[1..]);
  }

  lemma {:induction false} FullTurnsReceive(pending: Bytes, n: nat)
    requires |pending| >= BUDGET * n
    ensures Received(FullTurns(pending, n)) == pending[..BUDGET * n]
    ensures forall i :: 0 <= i < n ==> Possible(FullTurns(pending, n)[i])
  {
    if n > 0 {
      FullTurnIsPossible(pending);
      FullTurnsReceive(pending[BUDGET..], n - 1);
      hide FullTurn, Joined, Possible;
      assert pending[..BUDGET * n] == pending[..BUDGET] + pending[BUDGET..][..BUDGET * (n - 1)];
    }
  }

  lemma {:induction false} FullTurnsArrive(pending: Bytes, n: nat)
    requires |pending| >= BUDGET * n
    ensures Arrivals(FullTurns(pending, n)) == Repeat(BUDGET, n)
    decreases n
  {
    if n > 0 {
      FullTurnIsPossible(pending);
      FullTurnsArrive(pending[BUDGET..], n - 1);
      hide FullTurn, Joined, Possible;
    }
  }

  const BURST := 33

  lemma {:induction false} RepeatStep(count: nat, n: nat)
    requires n > 0
    ensures Repeat(count, n) == [count] + Repeat(count, n - 1) && Repeat(count, n)[0] == count
    ensures Repeat(count, n)[1..] == Repeat(count, n - 1)
  {
  }

  /** Each full turn adds 65536 bytes and takes one frame of 28 away, so the count exceeds the bound in the 33rd. */
  lemma {:induction false} BurstCount(k: nat, m: nat)
    requires k < BURST && m >= BURST
    ensures !BacklogFits((BUDGET - HEADER) * k, Repeat(BUDGET, BURST - k), Repeat(HEADER, m - k))
    decreases BURST - k
  {
    hide BacklogFits, Repeat;
    RepeatStep(BUDGET, BURST - k);
    RepeatStep(HEADER, m - k);
    BacklogStep((BUDGET - HEADER) * k, BUDGET, Repeat(BUDGET, BURST - k - 1), Repeat(HEADER, m - k));
    if k < BURST - 1 {
      BurstCount(k + 1, m);
    }
  }

  lemma {:induction false} TinySizes(m: nat)
    requires 1 + m <= LAST_CORRELATION
    ensures var items := TinyItems(1, m);
            AllLegal(items) &&
            forall i :: 0 <= i < m ==>
                          |Encoded(items[i].frame, items[i].keys)| == HEADER && items[i].frame.correlation == i + 1
  {
    TinyAreLegal(1, m);
    forall i | 0 <= i < m
      ensures |Encoded(TinyItems(1, m)[i].frame, TinyItems(1, m)[i].keys)| == HEADER
    {
      TinyIsLegal(1 + i);
    }
  }

  /** Although no frame exceeds 28 bytes, a burst of them makes the reader fail: its bound is on the backlog. */
  lemma {:induction false} BurstTripsTheBound() returns (items: seq<Item>, turns: seq<Turn>)
    ensures AllLegal(items) && (forall i :: 0 <= i < |items| ==> |Encoded(items[i].frame, items[i].keys)| == HEADER)
    ensures forall i :: 0 <= i < |items| ==> items[i].frame.correlation == i + 1
    ensures Orderly(turns) && (forall i :: 0 <= i < |turns| ==> Possible(turns[i]))
    ensures Received(turns) <= Wire(items)
    ensures RunTurns([], turns).failure == Some(BufferOverflow)
  {
    hide Wire, FullTurns, RunTurns, Received, Possible, Encoded, Legal, Repeat, BacklogFits, TinyItems, Lengths, Arrivals,
         AllLegal;
    var m := BUDGET * BURST;
    items := TinyItems(1, m);
    TinyWire(1, m);
    TinySizes(m);
    turns := FullTurns(Wire(items), BURST);
    FullTurnsReceive(Wire(items), BURST);
    FullTurnsArrive(Wire(items), BURST);
    BurstCount(0, m);
    BurstOnWire(Wire(items), turns, items);
  }

  lemma {:induction false} BurstOnWire(wire: Bytes, turns: seq<Turn>, items: seq<Item>)
    requires AllLegal(items) && wire == Wire(items) && Orderly(turns) && Received(turns) <= wire
    requires !BacklogFits(0, Arrivals(turns), Lengths(items))
    ensures RunTurns([], turns).failure == Some(BufferOverflow)
  {
    var unread := wire[|Received(turns)|..];
    assert wire == [] + (Received(turns) + unread);
    ExactDelivery([], turns, unread, items);
  }

  // A peer that closes after its frame

  lemma {:induction false} CutPending(buffer: Bytes, pending: Bytes)
    requires |pending| >= BUDGET
    ensures buffer + pending == buffer + pending[..BUDGET] + pending[BUDGET..]
  {
  }

  /** The turns over a pipe whose writer has closed and left `pending` in it: end of file shows as soon as a turn can read on. */
  ghost predicate ClosedPipe(turns: seq<Turn>, pending: Bytes)
    decreases |turns|
  {
    && turns != []
    && Joined(turns[0].chunks) == pending[..Min(|pending|, BUDGET)]
    && (if |pending| < BUDGET then turns[0].end.Closed? && |turns| == 1
        else turns[0].end.BudgetSpent? && ClosedPipe(turns[1..], pending[BUDGET..]))
  }

  /** A positive multiple of the read budget. */
  predicate Delivers(pending: nat) {
    pending > 0 && pending % BUDGET == 0
  }

  ghost predicate ClosedSession(s: Session, f: Frame, pending: nat) {
    && s.frames == (if Delivers(pending) then [f] else [])
    && s.failure == Some(if s.frames == [f] then PeerClosed else PeerClosedInFrame)
  }

  /**
   End of file is reported before a complete frame that is already buffered. A frame whose last `pending` bytes are read
   from a closed pipe is delivered exactly when they are a positive multiple of the read budget; otherwise it is lost,
   complete though it is.
   */
  lemma {:induction false} FrameBeforeClose(buffer: Bytes, pending: Bytes, f: Frame, keys: seq<Bytes>, turns: seq<Turn>)
    requires Legal(f, keys) && buffer + pending == Encoded(f, keys) && ClosedPipe(turns, pending)
    ensures ClosedSession(RunTurns(buffer, turns), f, |pending|)
    decreases |turns|
  {
    ClosedTurn(buffer, pending, f, keys, turns[0]);
    RunStep(buffer, turns);
    var (r, b) := TakeTurn(buffer, turns[0]);
    var rest := turns[1..];
    hide TakeTurn, Encoded, Legal, RunTurns, Joined, ClosedSession;
    if |pending| < BUDGET {
      EndsInFrame(b, f, |pending|);
    } else if |pending| == BUDGET {
      assert pending[BUDGET..] == [];
      EndsAfterFrame(f, rest);
    } else {
      CutPending(buffer, pending);
      FrameBeforeClose(b, pending[BUDGET..], f, keys, rest);
      ClosedLater(RunTurns(b, rest), f, |pending|);
    }
  }

  lemma {:induction false} EndsInFrame(b: Bytes, f: Frame, pending: nat)
    requires pending < BUDGET
    ensures ClosedSession(Session([], Some(PeerClosedInFrame), b), f, pending)
  {
  }

  lemma {:induction false} EndsAfterFrame(f: Frame, rest: seq<Turn>)
    requires ClosedPipe(rest, [])
    ensures ClosedSession(Continue(Delivered(f), [], RunTurns([], rest)), f, BUDGET)
  {
    ClosedEmpty(rest);
    hide RunTurns;
  }

  lemma {:induction false} ClosedLater(s: Session, f: Frame, pending: nat)
    requires pending > BUDGET && ClosedSession(s, f, pending - BUDGET)
    ensures ClosedSession(s, f, pending)
  {
  }

  /** One turn over a pipe that its writer has closed. */
  lemma {:induction false} ClosedTurn(buffer: Bytes, pending: Bytes, f: Frame, keys: seq<Bytes>, t: Turn)
    requires Legal(f, keys) && buffer + pending == Encoded(f, keys)
    requires Joined(t.chunks) == pending[..Min(|pending|, BUDGET)]
    requires if |pending| < BUDGET then t.end.Closed? else t.end.BudgetSpent?
    ensures var (r, b) := TakeTurn(buffer, t);
            if |pending| < BUDGET then r == Raised(PeerClosedInFrame)
            else if |pending| == BUDGET then r == Delivered(f) && b == []
            else r == Nothing && b == buffer + pending[..BUDGET]
  {
    var e := Encoded(f, keys);
    assert e + [] == e;
    EncodedShape(f, keys, e, []);
    FillMeaning(buffer, t.chunks);
    assert buffer + Joined(t.chunks) == e[..|buffer| + Min(|pending|, BUDGET)];
    if |pending| == BUDGET {
      assert buffer + Joined(t.chunks) == e;
      ParseEncoded(f, keys, []);
    } else if |pending| > BUDGET {
      ParsePrefix(f, keys, |buffer| + BUDGET);
    }
    hide FillBuffer, Encoded, Header, Lines, Joined, Legal, Parse;
  }

  lemma {:induction false} ClosedEmpty(turns: seq<Turn>)
    requires ClosedPipe(turns, [])
    ensures RunTurns([], turns) == Session([], Some(PeerClosed), [])
  {
    var c := turns[0].chunks;
    FillMeaning([], c);
    assert [] + Joined(c) == [];
  }

  /** For instance: a worker that writes a frame of 28 bytes and closes its pipe loses it. */
  lemma {:induction false} TinyFrameIsLost(correlation: U64, turns: seq<Turn>)
    requires ClosedPipe(turns, Encoded(TinyItem(correlation).frame, []))
    ensures RunTurns([], turns).frames == [] && RunTurns([], turns).failure == Some(PeerClosedInFrame)
  {
    TinyIsLegal(correlation);
    var f := TinyItem(correlation).frame;
    hide Encoded, Legal, TinyItem, ClosedPipe, RunTurns;
    assert [] + Encoded(f, []) == Encoded(f, []);
    FrameBeforeClose([], Encoded(f, []), f, [], turns);
  }
}
