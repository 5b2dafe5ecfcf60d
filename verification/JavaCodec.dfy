/** The client's own implementation of the wire format, and its agreement with the Kernel's. */
module JavaCodec {
  import opened Basics
  import opened BigEndian
  import opened Utf8
  import opened Codec

  type Int32 = x: int | -0x8000_0000 <= x < 0x8000_0000
  type Int64 = x: int | -0x8000_0000_0000_0000 <= x < 0x8000_0000_0000_0000

  type JMetadata = map<JString, JString>

  datatype JEntry = JEntry(key: JString, value: JString)

  datatype JFrame = JFrame(msgType: Int32, correlation: Int64, metadata: JMetadata, payload: Bytes)

  datatype JParsed = JIncomplete | JBad(error: Error) | JComplete(frame: JFrame, rest: Bytes)

  /** `Character.isWhitespace` */
  predicate Whitespace(u: Unit) {
    || 9 <= u <= 13 || 28 <= u <= 32 || u == 0x1680 || (0x2000 <= u <= 0x200A && u != 0x2007)
    || u == 0x2028 || u == 0x2029 || u == 0x205F || u == 0x3000
  }

  predicate Blank(s: JString) {
    forall u :: u in s ==> Whitespace(u)
  }

  predicate ValidJEntry(e: JEntry) {
    && !Blank(e.key) && EQUALS !in e.key && LF !in e.key && CR !in e.key && LF !in e.value && CR !in e.value
  }

  // Metadata

  function JLine(e: JEntry): JString {
    e.key + [EQUALS] + e.value + [LF]
  }

  function JText(entries: seq<JEntry>): JString {
    if entries == [] then [] else JLine(entries[0]) + JText(entries[1..])
  }

  /** The listing of a map in the iteration order of its sorted copy; the theorems hold for every order. */
  ghost predicate JLists(entries: seq<JEntry>, m: JMetadata) {
    && (forall i, j :: 0 <= i < j < |entries| ==> entries[i].key != entries[j].key)
    && (forall i :: 0 <= i < |entries| ==> entries[i].key in m && m[entries[i].key] == entries[i].value)
    && (forall k :: k in m ==> exists i :: 0 <= i < |entries| && entries[i].key == k)
  }

  predicate AllValidJ(entries: seq<JEntry>) {
    forall i :: 0 <= i < |entries| ==> ValidJEntry(entries[i])
  }

  function JEncodeMetadata(entries: seq<JEntry>): Result<Bytes, Error> {
    if AllValidJ(entries) then Ok(ToUtf8(JText(entries))) else Err(InvalidMetadata)
  }

  /** The string builder loop. */
  method JEncodeMetadataLoop(entries: seq<JEntry>) returns (r: Result<Bytes, Error>)
    ensures r == JEncodeMetadata(entries)
  {
    var out: JString := [];
    for i := 0 to |entries|
      invariant out == JText(entries[..i])
      invariant AllValidJ(entries[..i])
    {
      var key, value := entries[i].key, entries[i].value;
      if Blank(key) || EQUALS in key || LF in key || CR in key || LF in value || CR in value {
        assert !ValidJEntry(entries[i]);
        return Err(InvalidMetadata);
      }
      JTextAppend(entries[..i], entries[i]);
      assert entries[..i + 1] == entries[..i] + [entries[i]];
      out := out + key + [EQUALS] + value + [LF];
    }
    assert entries[..|entries|] == entries;
    r := Ok(ToUtf8(out));
  }

  lemma {:induction false} JTextAppend(entries: seq<JEntry>, e: JEntry)
    ensures JText(entries + [e]) == JText(entries) + e.key + [EQUALS] + e.value + [LF]
  {
    if entries == [] {
      assert JText([e]) == JLine(e) + JText([]);
    } else {
      JTextAppend(entries[1..], e);
      assert (entries + [e])[1..] == entries[1..] + [e];
    }
  }

  /** `text.split("\\n", -1)` */
  function SplitLines(text: JString, pos: nat): (lines: seq<JString>)
    requires pos <= |text|
    ensures lines != []
    decreases |text| - pos
  {
    var end := Find(text, LF, pos);
    [text[pos..end]] + if end == |text| then [] else SplitLines(text, end + 1)
  }

  /** The last value of a key wins, as with `put`. */
  function JAddLine(acc: JMetadata, line: JString): Result<JMetadata, Error> {
    if line == [] then Ok(acc)
    else
      var eq := Find(line, EQUALS, 0);
      if eq == |line| || eq == 0 then Err(MalformedMetadata) else Ok(acc[line[..eq] := line[eq + 1..]])
  }

  function JAddLines(acc: JMetadata, lines: seq<JString>): Result<JMetadata, Error>
    decreases |lines|
  {
    if lines == [] then Ok(acc)
    else
      match JAddLine(acc, lines[0])
      case Err(e) => Err(e)
      case Ok(next) => JAddLines(next, lines[1..])
  }

  function JDecodeMetadata(encoded: Bytes): Result<JMetadata, Error> {
    JAddLines(map[], SplitLines(FromUtf8(encoded), 0))
  }

  method JDecodeMetadataLoop(encoded: Bytes) returns (r: Result<JMetadata, Error>)
    ensures r == JDecodeMetadata(encoded)
  {
    var result: JMetadata := map[];
    var lines := SplitLines(FromUtf8(encoded), 0);
    for i := 0 to |lines|
      invariant JAddLines(result, lines[i..]) == JDecodeMetadata(encoded)
    {
      var line := lines[i];
      assert lines[i..][0] == line && lines[i..][1..] == lines[i + 1..];
      if line == [] {
        continue;
      }
      var eq := Find(line, EQUALS, 0);
      if eq == |line| || eq == 0 {
        return Err(MalformedMetadata);
      }
      result := result[line[..eq] := line[eq + 1..]];
    }
    r := Ok(result);
  }

  function LastWins(entries: seq<JEntry>, acc: JMetadata): JMetadata
    decreases |entries|
  {
    if entries == [] then acc else LastWins(entries[1..], acc[entries[0].key := entries[0].value])
  }

  lemma {:induction false} LastWinsMeaning(entries: seq<JEntry>, acc: JMetadata)
    ensures forall k :: k in LastWins(entries, acc) <==> k in acc || exists i :: 0 <= i < |entries| && entries[i].key == k
    ensures forall k :: k in acc && (forall i :: 0 <= i < |entries| ==> entries[i].key != k) ==>
                          LastWins(entries, acc)[k] == acc[k]
    ensures (forall i, j :: 0 <= i < j < |entries| ==> entries[i].key != entries[j].key) ==>
              forall i :: 0 <= i < |entries| ==> LastWins(entries, acc)[entries[i].key] == entries[i].value
    decreases |entries|
  {
    if entries != [] {
      LastWinsMeaning(entries[1..], acc[entries[0].key := entries[0].value]);
    }
  }

  predicate Clean(e: JEntry) {
    e.key != [] && EQUALS !in e.key && LF !in e.key && LF !in e.value
  }

  /** A line without its end. */
  function JContent(e: JEntry): JString {
    e.key + [EQUALS] + e.value
  }

  lemma {:induction false} CleanContent(e: JEntry)
    requires Clean(e)
    ensures LF !in JContent(e) && JLine(e) == JContent(e) + [LF]
  {
  }

  lemma {:induction false} JAddCleanLine(acc: JMetadata, e: JEntry)
    requires Clean(e)
    ensures JAddLine(acc, JContent(e)) == Ok(acc[e.key := e.value])
  {
    var line := e.key + [EQUALS] + e.value;
    assert line[0..] == e.key + ([EQUALS] + e.value);
    FindSkips(line, EQUALS, 0, e.key, [EQUALS] + e.value);
    assert line[..|e.key|] == e.key && line[|e.key| + 1..] == e.value;
  }

  lemma {:induction false} SplitStep(text: JString, pos: nat)
    requires pos <= |text| && Find(text, LF, pos) < |text|
    ensures var end := Find(text, LF, pos); SplitLines(text, pos) == [text[pos..end]] + SplitLines(text, end + 1)
  {
  }

  lemma {:induction false} AddFirstLine(acc: JMetadata, line: JString, later: seq<JString>)
    ensures JAddLine(acc, line).Ok? ==> JAddLines(acc, [line] + later) == JAddLines(JAddLine(acc, line).value, later)
  {
    hide JAddLine;
    assert ([line] + later)[0] == line && ([line] + later)[1..] == later;
  }

  lemma {:induction false} JDecodeStep(text: JString, pos: nat, e: JEntry, rest: JString, acc: JMetadata)
    requires Clean(e) && pos <= |text| && text[pos..] == JLine(e) + rest
    ensures var next := pos + |JLine(e)|;
            && next <= |text| && text[next..] == rest
            && JAddLines(acc, SplitLines(text, pos)) == JAddLines(acc[e.key := e.value], SplitLines(text, next))
  {
    hide JAddLine, JAddLines, Clean, SplitLines, JLine, Find;
    var line := JContent(e);
    CleanContent(e);
    JAddCleanLine(acc, e);
    FindEnd(text, LF, pos, line, rest);
    SplitStep(text, pos);
    AddFirstLine(acc, line, SplitLines(text, pos + |line| + 1));
  }

  /** After the last line there is one more piece, an empty one. */
  lemma {:induction false} JDecodeEnd(text: JString, acc: JMetadata)
    ensures JAddLines(acc, SplitLines(text, |text|)) == Ok(acc)
  {
    var lines := SplitLines(text, |text|);
    assert Find(text, LF, |text|) == |text|;
    assert lines == [text[|text|..|text|]];
    assert lines[0] == [] && lines[1..] == [];
    assert JAddLine(acc, []) == Ok(acc);
    assert JAddLines(acc, lines) == JAddLines(acc, lines[1..]);
  }

  lemma {:induction false} JDecodeEntries(text: JString, pos: nat, entries: seq<JEntry>, acc: JMetadata)
    requires forall i :: 0 <= i < |entries| ==> Clean(entries[i])
    requires pos <= |text| && text[pos..] == JText(entries)
    ensures JAddLines(acc, SplitLines(text, pos)) == Ok(LastWins(entries, acc))
    decreases |entries|
  {
    hide Clean, SplitLines, JAddLines, JAddLine, JLine;
    if entries == [] {
      JDecodeEnd(text, acc);
    } else {
      var e := entries[0];
      JDecodeStep(text, pos, e, JText(entries[1..]), acc);
      JDecodeEntries(text, pos + |JLine(e)|, entries[1..], acc[e.key := e.value]);
    }
  }

  // Frames

  function Unsigned16(x: Int32): U16 {
    x % 0x1_0000
  }

  function Unsigned64(x: Int64): U64 {
    if x < 0 then x + 0x1_0000_0000_0000_0000 else x
  }

  function Signed32(x: int): int {
    if x >= 0x8000_0000 then x - 0x1_0000_0000 else x
  }

  function Signed64(x: U64): Int64 {
    if x >= 0x8000_0000_0000_0000 then x - 0x1_0000_0000_0000_0000 else x
  }

  function JEncodeFrame(f: JFrame, entries: seq<JEntry>): Result<Bytes, Error> {
    match JEncodeMetadata(entries)
    case Err(e) => Err(e)
    case Ok(metadata) =>
      if |metadata| > MAX_METADATA || |f.payload| > MAX_PAYLOAD then Err(TooLarge)
      else Ok(Header(Unsigned16(f.msgType), Unsigned64(f.correlation), |metadata|, |f.payload|) + metadata + f.payload)
  }

  /** The lengths as `getInt` and `getLong` deliver them, and the checks on signed values. */
  function JHeaderError(b: Bytes): Option<Error>
    requires |b| >= HEADER
  {
    var metadataLength, payloadLength := Signed32(GetU32(b[16..20])), Signed64(Long(b[20..28]));
    if b[..4] != Magic() then Some(InvalidMagic)
    else if GetU16(b[4..6]) != VERSION then Some(UnsupportedVersion)
    else if metadataLength < 0 || metadataLength > MAX_METADATA || payloadLength < 0 || payloadLength > MAX_PAYLOAD
    then Some(TooLarge)
    else None
  }

  function Long(b: Bytes): U64
    requires |b| == 8
  {
    Widths();
    FromBeBound(b);
    FromBe(b)
  }

  /** The signed checks refuse exactly the headers that the Kernel's unsigned checks refuse, for the same reason. */
  lemma {:induction false} SameHeaderChecks(b: Bytes)
    requires |b| >= HEADER
    ensures JHeaderError(b) == HeaderError(b)
    ensures JHeaderError(b) == None ==>
              Signed32(GetU32(b[16..20])) == MetadataLength(b) && Signed64(Long(b[20..28])) == PayloadLength(b)
  {
    Widths();
    FromBeBound(b[16..20]);
    GetU32IsBigEndian(b[16..20]);
    hide Magic, FromBe, GetU16, GetU32;
  }

  function JParse(b: Bytes): JParsed {
    if |b| < HEADER then JIncomplete
    else
      match JHeaderError(b)
      case Some(e) => JBad(e)
      case None =>
        SameHeaderChecks(b);
        FieldBounds(b);
        var body := HEADER + Signed32(GetU32(b[16..20]));
        var total := body + Signed64(Long(b[20..28]));
        if |b| < total then JIncomplete
        else
          match JDecodeMetadata(b[HEADER..body])
          case Err(e) => JBad(e)
          case Ok(m) => JComplete(JFrame(GetU16(b[6..8]), Signed64(Long(b[8..16])), m, b[body..total]), b[total..])
  }

  lemma {:induction false} JParseParts(t: U16, c: U64, metadata: Bytes, payload: Bytes, suffix: Bytes)
    requires |metadata| <= MAX_METADATA && |payload| <= MAX_PAYLOAD
    ensures JParse(Header(t, c, |metadata|, |payload|) + metadata + payload + suffix) ==
              match JDecodeMetadata(metadata)
              case Err(e) => JBad(e)
              case Ok(m) => JComplete(JFrame(t, Signed64(c), m, payload), suffix)
  {
    var h := Header(t, c, |metadata|, |payload|);
    var b := h + metadata + payload + suffix;
    var body := HEADER + |metadata|;
    assert b[..HEADER] == h && b[HEADER..body] == metadata;
    assert b[body..body + |payload|] == payload && b[body + |payload|..] == suffix;
    HeaderFields(b, t, c, |metadata|, |payload|);
    SameHeaderChecks(b);
    hide HeaderError, JHeaderError, MetadataLength, PayloadLength, Header, JDecodeMetadata, GetU16, FromBe, Signed32;
  }

  /** `write`: the header is put field by field into a buffer, and the three parts go to the channel one after the other. */
  method JWrite(f: JFrame, entries: seq<JEntry>) returns (r: Result<Bytes, Error>)
    ensures r == JEncodeFrame(f, entries)
  {
    var encoded := JEncodeMetadataLoop(entries);
    if encoded.Err? {
      return Err(encoded.error);
    }
    var metadata := encoded.value;
    if |metadata| > MAX_METADATA || |f.payload| > MAX_PAYLOAD {
      return Err(TooLarge);
    }
    hide Be, Magic;
    var header := Magic();
    header := header + Be(VERSION, 2);
    header := header + Be(Unsigned16(f.msgType), 2);
    header := header + Be(Unsigned64(f.correlation), 8);
    header := header + Be(|metadata|, 4);
    header := header + Be(|f.payload|, 8);
    var channel := header;
    channel := channel + metadata;
    channel := channel + f.payload;
    r := Ok(channel);
  }

  /** `read` on a channel that ends after `stream`: each read fills its buffer or fails at the end of the stream. */
  method JRead(stream: Bytes) returns (r: JParsed)
    ensures r == JParse(stream)
  {
    if |stream| < HEADER {
      return JIncomplete;
    }
    var header := stream[..HEADER];
    HeaderView(stream, header);
    hide GetU16, GetU32, FromBe, Magic;
    if header[..4] != Magic() {
      return JBad(InvalidMagic);
    }
    if GetU16(header[4..6]) != VERSION {
      return JBad(UnsupportedVersion);
    }
    FieldBounds(stream);
    var msgType := GetU16(header[6..8]);
    var correlation := Signed64(Long(header[8..16]));
    var metadataLength := Signed32(GetU32(header[16..20]));
    var payloadLength := Signed64(Long(header[20..28]));
    if metadataLength < 0 || metadataLength > MAX_METADATA || payloadLength < 0 || payloadLength > MAX_PAYLOAD {
      return JBad(TooLarge);
    }
    var position := HEADER;
    if |stream| < position + metadataLength {
      return JIncomplete;
    }
    var metadata := stream[position..position + metadataLength];
    position := position + metadataLength;
    if |stream| < position + payloadLength {
      return JIncomplete;
    }
    var payload := stream[position..position + payloadLength];
    position := position + payloadLength;
    var decoded := JDecodeMetadataLoop(metadata);
    if decoded.Err? {
      return JBad(decoded.error);
    }
    r := JComplete(JFrame(msgType, correlation, decoded.value, payload), stream[position..]);
  }

  lemma {:induction false} HeaderView(stream: Bytes, header: Bytes)
    requires |stream| >= HEADER && header == stream[..HEADER]
    ensures header[..4] == stream[..4] && header[4..6] == stream[4..6] && header[6..8] == stream[6..8]
    ensures header[8..16] == stream[8..16] && header[16..20] == stream[16..20] && header[20..28] == stream[20..28]
  {
  }
}
