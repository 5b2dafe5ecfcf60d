/** The framed wire format of the Kernel: encoding, parsing, and why parsing undoes encoding. */
module Codec {
  import opened Basics
  import opened BigEndian

  type U16 = x: int | 0 <= x < 0x1_0000
  type U64 = x: int | 0 <= x < 0x1_0000_0000_0000_0000

  type Metadata = map<Bytes, Bytes>

  datatype Frame = Frame(msgType: U16, correlation: U64, metadata: Metadata, payload: Bytes)

  datatype Error =
    | InvalidMetadata
    | MalformedMetadata
    | InvalidMagic
    | UnsupportedVersion
    | TooLarge
    | BufferOverflow
    | PeerClosed
    | PeerClosedInFrame
    | ReadFailed

  const HEADER := 28
  const VERSION := 1
  const MAX_METADATA := 0x10_0000
  const MAX_PAYLOAD := 0x10_0000

  function Magic(): (m: Bytes)
    ensures |m| == 4
  {
    [77, 65, 68, 82]
  }

  // Metadata

  predicate ValidEntry(key: Bytes, value: Bytes) {
    key != [] && EQUALS !in key && LF !in key && CR !in key && LF !in value && CR !in value
  }

  /** A listing of the keys of a map in the order in which the map is iterated; the theorems hold for every order. */
  ghost predicate Lists(keys: seq<Bytes>, m: Metadata) {
    && (forall i, j :: 0 <= i < j < |keys| ==> keys[i] != keys[j])
    && (forall k :: k in keys <==> k in m)
  }

  predicate AllValid(m: Metadata) {
    forall k :: k in m ==> ValidEntry(k, m[k])
  }

  datatype Entry = Entry(key: Bytes, value: Bytes)

  function Line(e: Entry): Bytes {
    e.key + [EQUALS] + e.value + [LF]
  }

  function EntryLines(entries: seq<Entry>): Bytes {
    if entries == [] then [] else Line(entries[0]) + EntryLines(entries[1..])
  }

  function Entries(m: Metadata, keys: seq<Bytes>): (entries: seq<Entry>)
    requires forall k :: k in keys ==> k in m
    ensures |entries| == |keys|
  {
    seq(|keys|, i requires 0 <= i < |keys| => Entry(keys[i], m[keys[i]]))
  }

  function Lines(m: Metadata, keys: seq<Bytes>): Bytes
    requires forall k :: k in keys ==> k in m
  {
    EntryLines(Entries(m, keys))
  }

  function EncodeMetadata(m: Metadata, keys: seq<Bytes>): Result<Bytes, Error>
    requires forall k :: k in keys ==> k in m
  {
    if forall k :: k in keys ==> ValidEntry(k, m[k]) then Ok(Lines(m, keys)) else Err(InvalidMetadata)
  }

  /** The encoder appends entry after entry and throws at the first one it refuses. */
  method EncodeMetadataLoop(m: Metadata, keys: seq<Bytes>) returns (r: Result<Bytes, Error>)
    requires forall k :: k in keys ==> k in m
    ensures r == EncodeMetadata(m, keys)
  {
    var out: Bytes := [];
    for i := 0 to |keys|
      invariant out == Lines(m, keys[..i])
      invariant forall k :: k in keys[..i] ==> ValidEntry(k, m[k])
    {
      var key, value := keys[i], m[keys[i]];
      if key == [] || EQUALS in key || CR in key || LF in key || CR in value || LF in value {
        assert !ValidEntry(keys[i], m[keys[i]]);
        return Err(InvalidMetadata);
      }
      AppendLine(Entries(m, keys[..i]), Entry(key, value));
      assert Entries(m, keys[..i + 1]) == Entries(m, keys[..i]) + [Entry(key, value)];
      assert keys[..i + 1] == keys[..i] + [key];
      out := out + key + [EQUALS] + value + [LF];
    }
    assert keys[..|keys|] == keys;
    r := Ok(out);
  }

  lemma {:induction false} AppendLine(entries: seq<Entry>, e: Entry)
    ensures EntryLines(entries + [e]) == EntryLines(entries) + e.key + [EQUALS] + e.value + [LF]
  {
    if entries == [] {
      assert EntryLines([e]) == Line(e) + EntryLines([]);
    } else {
      AppendLine(entries[1..], e);
      assert (entries + [e])[1..] == entries[1..] + [e];
    }
  }

  /** One line of metadata: the first value of a key wins, as with `emplace`. */
  function AddLine(acc: Metadata, line: Bytes): Result<Metadata, Error> {
    if line == [] then Ok(acc)
    else
      var eq := Find(line, EQUALS, 0);
      if eq == |line| || eq == 0 then Err(MalformedMetadata)
      else if line[..eq] in acc then Ok(acc)
      else Ok(acc[line[..eq] := line[eq + 1..]])
  }

  function DecodeFrom(encoded: Bytes, pos: nat, acc: Metadata): Result<Metadata, Error>
    requires pos <= |encoded| + 1
    decreases |encoded| + 1 - pos
  {
    if pos >= |encoded| then Ok(acc)
    else
      var end := Find(encoded, LF, pos);
      match AddLine(acc, encoded[pos..end])
      case Err(e) => Err(e)
      case Ok(next) => DecodeFrom(encoded, end + 1, next)
  }

  function DecodeMetadata(encoded: Bytes): Result<Metadata, Error> {
    DecodeFrom(encoded, 0, map[])
  }

  method DecodeMetadataLoop(encoded: Bytes) returns (r: Result<Metadata, Error>)
    ensures r == DecodeMetadata(encoded)
  {
    var out: Metadata := map[];
    var pos := 0;
    while pos < |encoded|
      invariant 0 <= pos <= |encoded| + 1
      invariant DecodeFrom(encoded, pos, out) == DecodeMetadata(encoded)
    {
      var end := Find(encoded, LF, pos);
      var line := encoded[pos..end];
      if line != [] {
        var eq := Find(line, EQUALS, 0);
        if eq == |line| || eq == 0 {
          return Err(MalformedMetadata);
        }
        if line[..eq] !in out {
          out := out[line[..eq] := line[eq + 1..]];
        }
      }
      pos := end + 1;
    }
    r := Ok(out);
  }

  /** The map after one more entry; a key that is there keeps its value. */
  function Added(acc: Metadata, e: Entry): Metadata {
    if e.key in acc then acc else acc[e.key := e.value]
  }

  /** A line without its end. */
  function Content(e: Entry): Bytes {
    e.key + [EQUALS] + e.value
  }

  lemma {:induction false} ValidContent(e: Entry)
    requires ValidEntry(e.key, e.value)
    ensures LF !in Content(e) && Line(e) == Content(e) + [LF]
  {
  }

  /** A line of a valid entry adds just that entry. */
  lemma {:induction false} AddValidLine(acc: Metadata, e: Entry)
    requires ValidEntry(e.key, e.value)
    ensures AddLine(acc, Content(e)) == Ok(Added(acc, e))
  {
    var line := e.key + [EQUALS] + e.value;
    assert line[0..] == e.key + ([EQUALS] + e.value);
    FindSkips(line, EQUALS, 0, e.key, [EQUALS] + e.value);
    assert line[..|e.key|] == e.key && line[|e.key| + 1..] == e.value;
  }

  /** All entries in turn; the first value of a key stays. */
  function FirstWins(entries: seq<Entry>, acc: Metadata): Metadata
    decreases |entries|
  {
    if entries == [] then acc
    else FirstWins(entries[1..], Added(acc, entries[0]))
  }

  lemma {:induction false} DecodeStep(encoded: Bytes, pos: nat, acc: Metadata)
    requires pos < |encoded|
    ensures var end := Find(encoded, LF, pos);
            AddLine(acc, encoded[pos..end]).Ok? ==>
              DecodeFrom(encoded, pos, acc) == DecodeFrom(encoded, end + 1, AddLine(acc, encoded[pos..end]).value)
  {
    hide AddLine;
  }

  /** One step of decoding at the line of a valid entry. */
  lemma {:induction false} DecodeLine(encoded: Bytes, pos: nat, e: Entry, rest: Bytes, acc: Metadata)
    requires ValidEntry(e.key, e.value)
    requires pos <= |encoded| && encoded[pos..] == Line(e) + rest
    ensures var next := pos + |Line(e)|;
            && next <= |encoded| && encoded[next..] == rest
            && DecodeFrom(encoded, pos, acc) == DecodeFrom(encoded, next, Added(acc, e))
  {
    hide ValidEntry, AddLine, Find, Added, DecodeFrom, Line;
    var line := Content(e);
    ValidContent(e);
    AddValidLine(acc, e);
    FindEnd(encoded, LF, pos, line, rest);
    DecodeStep(encoded, pos, acc);
  }

  lemma {:induction false} DecodeEntries(encoded: Bytes, pos: nat, entries: seq<Entry>, acc: Metadata)
    requires forall i :: 0 <= i < |entries| ==> ValidEntry(entries[i].key, entries[i].value)
    requires pos <= |encoded| && encoded[pos..] == EntryLines(entries)
    ensures DecodeFrom(encoded, pos, acc) == Ok(FirstWins(entries, acc))
    decreases |entries|
  {
    hide ValidEntry, Line, Added, Find, AddLine;
    if entries != [] {
      DecodeLine(encoded, pos, entries[0], EntryLines(entries[1..]), acc);
      hide DecodeFrom;
      DecodeEntries(encoded, pos + |Line(entries[0])|, entries[1..], Added(acc, entries[0]));
    }
  }

  /** The map has the keys of the entries; when no key repeats it has their values, too. */
  lemma {:induction false} FirstWinsMeaning(entries: seq<Entry>, acc: Metadata)
    ensures forall k :: k in FirstWins(entries, acc) <==> k in acc || exists i :: 0 <= i < |entries| && entries[i].key == k
    ensures forall k :: k in acc ==> FirstWins(entries, acc)[k] == acc[k]
    ensures (forall i, j :: 0 <= i < j < |entries| ==> entries[i].key != entries[j].key) ==>
              forall i :: 0 <= i < |entries| && entries[i].key !in acc ==>
                            FirstWins(entries, acc)[entries[i].key] == entries[i].value
    decreases |entries|
  {
    if entries != [] {
      var e := entries[0];
      FirstWinsMeaning(entries[1..], Added(acc, e));
    }
  }

  /** The first entry with its key decides, whatever repeats later. */
  lemma {:induction false} FirstWinsAt(entries: seq<Entry>, acc: Metadata, i: nat)
    requires i < |entries| && entries[i].key !in acc
    requires forall k :: 0 <= k < i ==> entries[k].key != entries[i].key
    ensures var m := FirstWins(entries, acc); entries[i].key in m && m[entries[i].key] == entries[i].value
    decreases |entries|
  {
    if i > 0 {
      assert entries[0].key != entries[i].key;
      FirstWinsAt(entries[1..], Added(acc, entries[0]), i - 1);
    } else {
      FirstWinsMeaning(entries[1..], Added(acc, entries[0]));
    }
  }

  lemma {:induction false} Listed(m: Metadata, keys: seq<Bytes>, k: Bytes) returns (i: nat)
    requires Lists(keys, m) && k in m
    ensures i < |keys| && Entries(m, keys)[i] == Entry(k, m[k])
  {
    i :| 0 <= i < |keys| && keys[i] == k;
  }

  /** A listing of a map determines the map. */
  lemma {:induction false} FirstWinsOfListing(m: Metadata, keys: seq<Bytes>)
    requires Lists(keys, m)
    ensures FirstWins(Entries(m, keys), map[]) == m
  {
    var entries := Entries(m, keys);
    var r := FirstWins(entries, map[]);
    FirstWinsMeaning(entries, map[]);
    hide FirstWins;
    forall k | k in m
      ensures k in r && r[k] == m[k]
    {
      var i := Listed(m, keys, k);
    }
    forall k | k in r
      ensures k in m
    {
      var i :| 0 <= i < |entries| && entries[i].key == k;
      assert keys[i] in keys;
    }
  }

  /** Decoding undoes encoding of every metadata map the encoder accepts, in whatever order it lists the entries. */
  lemma {:induction false} MetadataRoundTrip(m: Metadata, keys: seq<Bytes>)
    requires Lists(keys, m)
    ensures EncodeMetadata(m, keys).Ok? <==> AllValid(m)
    ensures EncodeMetadata(m, keys).Ok? ==> DecodeMetadata(EncodeMetadata(m, keys).value) == Ok(m)
  {
    if AllValid(m) {
      var entries := Entries(m, keys);
      ValidEntries(m, keys);
      FirstWinsOfListing(m, keys);
      hide ValidEntry, FirstWins, DecodeFrom, Entries, EntryLines;
      assert EntryLines(entries)[0..] == EntryLines(entries);
      DecodeEntries(EntryLines(entries), 0, entries, map[]);
    }
  }

  lemma {:induction false} ValidEntries(m: Metadata, keys: seq<Bytes>)
    requires Lists(keys, m) && AllValid(m)
    ensures var entries := Entries(m, keys); forall i :: 0 <= i < |entries| ==> ValidEntry(entries[i].key, entries[i].value)
  {
    hide ValidEntry;
    assert forall i :: 0 <= i < |keys| ==> keys[i] in keys;
  }

  // Frames

  function Header(msgType: U16, correlation: U64, metadataLength: nat, payloadLength: nat): (h: Bytes)
    ensures |h| == HEADER
  {
    Magic() + Be(VERSION, 2) + Be(msgType, 2) + Be(correlation, 8) + Be(metadataLength, 4) + Be(payloadLength, 8)
  }

  function EncodeFrame(f: Frame, keys: seq<Bytes>): Result<Bytes, Error>
    requires forall k :: k in keys ==> k in f.metadata
  {
    match EncodeMetadata(f.metadata, keys)
    case Err(e) => Err(e)
    case Ok(metadata) =>
      if |metadata| > MAX_METADATA || |f.payload| > MAX_PAYLOAD then Err(TooLarge)
      else Ok(Header(f.msgType, f.correlation, |metadata|, |f.payload|) + metadata + f.payload)
  }

  /** What a received byte string starts with. */
  datatype Parsed = Incomplete | Bad(error: Error) | Complete(frame: Frame, rest: Bytes)

  function MetadataLength(b: Bytes): nat
    requires |b| >= HEADER
  {
    GetU32(b[16..20])
  }

  function PayloadLength(b: Bytes): nat
    requires |b| >= HEADER
  {
    FromBe(b[20..28])
  }

  function TotalLength(b: Bytes): nat
    requires |b| >= HEADER
  {
    HEADER + MetadataLength(b) + PayloadLength(b)
  }

  /** The checks of the header, in their order. */
  function HeaderError(b: Bytes): Option<Error>
    requires |b| >= HEADER
  {
    if b[..4] != Magic() then Some(InvalidMagic)
    else if GetU16(b[4..6]) != VERSION then Some(UnsupportedVersion)
    else if MetadataLength(b) > MAX_METADATA || PayloadLength(b) > MAX_PAYLOAD then Some(TooLarge)
    else None
  }

  lemma {:induction false} FieldBounds(b: Bytes)
    requires |b| >= HEADER
    ensures GetU16(b[6..8]) < 0x1_0000 && FromBe(b[8..16]) < 0x1_0000_0000_0000_0000
  {
    FromBeBound(b[8..16]);
    assert Pow256(8) == 0x1_0000_0000_0000_0000 by {
      assert Pow256(2) == 0x1_0000 && Pow256(4) == 0x1_0000_0000 && Pow256(6) == 0x1_0000_0000_0000;
    }
  }

  function Parse(b: Bytes): Parsed {
    if |b| < HEADER then Incomplete
    else
      match HeaderError(b)
      case Some(e) => Bad(e)
      case None =>
        if |b| < TotalLength(b) then Incomplete
        else
          var body := HEADER + MetadataLength(b);
          match DecodeMetadata(b[HEADER..body])
          case Err(e) => Bad(e)
          case Ok(metadata) =>
            FieldBounds(b);
            Complete(Frame(GetU16(b[6..8]), FromBe(b[8..16]), metadata, b[body..TotalLength(b)]), b[TotalLength(b)..])
  }

  lemma {:induction false} Widths()
    ensures Pow256(2) == 0x1_0000 && Pow256(4) == 0x1_0000_0000 && Pow256(8) == 0x1_0000_0000_0000_0000
  {
    assert Pow256(6) == 0x1_0000_0000_0000;
  }

  /** The fields of a header that the encoder wrote, as the parser reads them. */
  lemma {:induction false} HeaderFields(b: Bytes, t: U16, c: U64, m: nat, p: nat)
    requires |b| >= HEADER && b[..HEADER] == Header(t, c, m, p) && m <= MAX_METADATA && p <= MAX_PAYLOAD
    ensures HeaderError(b) == None
    ensures GetU16(b[6..8]) == t && FromBe(b[8..16]) == c && MetadataLength(b) == m && PayloadLength(b) == p
  {
    Widths();
    HeaderSlices(b, t, c, m, p);
    hide Be, FromBe, Pow256, Header, GetU16, GetU32;
    GetU16IsBigEndian(b[4..6]);
    GetU16IsBigEndian(b[6..8]);
    GetU32IsBigEndian(b[16..20]);
    DecodeEncode(VERSION, 2);
    DecodeEncode(t, 2);
    DecodeEncode(c, 8);
    DecodeEncode(m, 4);
    DecodeEncode(p, 8);
  }

  lemma {:induction false} HeaderSlices(b: Bytes, t: U16, c: U64, m: nat, p: nat)
    requires |b| >= HEADER && b[..HEADER] == Header(t, c, m, p)
    ensures b[..4] == Magic() && b[4..6] == Be(VERSION, 2) && b[6..8] == Be(t, 2)
    ensures b[8..16] == Be(c, 8) && b[16..20] == Be(m, 4) && b[20..28] == Be(p, 8)
  {
    hide Be, Magic;
    var h := b[..HEADER];
    assert b[..4] == h[..4] && b[4..6] == h[4..6] && b[6..8] == h[6..8];
    assert b[8..16] == h[8..16] && b[16..20] == h[16..20] && b[20..28] == h[20..28];
  }

  /** A legal frame: one that the encoder accepts when it lists the metadata as `keys`. */
  ghost predicate Legal(f: Frame, keys: seq<Bytes>) {
    Lists(keys, f.metadata) && EncodeFrame(f, keys).Ok?
  }

  function Encoded(f: Frame, keys: seq<Bytes>): (b: Bytes)
    requires (forall k :: k in keys ==> k in f.metadata) && EncodeFrame(f, keys).Ok?
    ensures |b| >= HEADER
  {
    EncodeFrame(f, keys).value
  }

  /** How long a legal frame is, and that its header says so. */
  lemma {:induction false} EncodedShape(f: Frame, keys: seq<Bytes>, b: Bytes, suffix: Bytes)
    requires Legal(f, keys) && b == Encoded(f, keys) + suffix
    ensures var lines := Lines(f.metadata, keys);
            && |lines| <= MAX_METADATA && |f.payload| <= MAX_PAYLOAD
            && |Encoded(f, keys)| == HEADER + |lines| + |f.payload|
            && b[..HEADER] == Header(f.msgType, f.correlation, |lines|, |f.payload|)
            && b[HEADER..HEADER + |lines|] == lines
            && b[HEADER + |lines|..HEADER + |lines| + |f.payload|] == f.payload
            && b[HEADER + |lines| + |f.payload|..] == suffix
  {
    hide Header, Lines;
  }

  /** A header and the parts it announces, followed by anything, parse to those parts. */
  lemma {:induction false} ParseParts(t: U16, c: U64, metadata: Bytes, payload: Bytes, suffix: Bytes)
    requires |metadata| <= MAX_METADATA && |payload| <= MAX_PAYLOAD
    ensures Parse(Header(t, c, |metadata|, |payload|) + metadata + payload + suffix) ==
              match DecodeMetadata(metadata)
              case Err(e) => Bad(e)
              case Ok(m) => Complete(Frame(t, c, m, payload), suffix)
  {
    var h := Header(t, c, |metadata|, |payload|);
    var b := h + metadata + payload + suffix;
    var body := HEADER + |metadata|;
    assert b[..HEADER] == h && b[HEADER..body] == metadata;
    assert b[body..body + |payload|] == payload && b[body + |payload|..] == suffix;
    HeaderFields(b, t, c, |metadata|, |payload|);
    hide HeaderError, MetadataLength, PayloadLength, Header, DecodeMetadata, GetU16, FromBe;
  }

  /** Parsing undoes encoding: a legal frame is read back whole, and what follows it is left alone. */
  lemma {:induction false} ParseEncoded(f: Frame, keys: seq<Bytes>, suffix: Bytes)
    requires Legal(f, keys)
    ensures Parse(Encoded(f, keys) + suffix) == Complete(f, suffix)
  {
    ParseParts(f.msgType, f.correlation, Lines(f.metadata, keys), f.payload, suffix);
    MetadataRoundTrip(f.metadata, keys);
    hide Parse, Header, DecodeMetadata, Lines;
  }

  /** A proper prefix of a legal frame is never mistaken for a frame or an error. */
  lemma {:induction false} ParsePrefix(f: Frame, keys: seq<Bytes>, n: nat)
    requires Legal(f, keys) && n < |Encoded(f, keys)|
    ensures Parse(Encoded(f, keys)[..n]) == Incomplete
  {
    var b := Encoded(f, keys)[..n];
    assert Encoded(f, keys) == Encoded(f, keys) + [];
    EncodedShape(f, keys, Encoded(f, keys), []);
    if n >= HEADER {
      assert b[..HEADER] == Encoded(f, keys)[..HEADER];
      HeaderFields(b, f.msgType, f.correlation, |Lines(f.metadata, keys)|, |f.payload|);
    }
    hide HeaderError, MetadataLength, PayloadLength, Encoded, Header, DecodeMetadata, GetU16, FromBe, Lines;
  }

  /** `std::copy` into a buffer. */
  method CopyInto(target: array<Byte>, at: nat, source: Bytes)
    requires at + |source| <= target.Length
    modifies target
    ensures target[..] == old(target[..at]) + source + old(target[at + |source|..])
  {
    for i := 0 to |source|
      invariant target[..] == old(target[..at]) + source[..i] + old(target[at + i..])
    {
      target[at + i] := source[i];
    }
  }

  /** The encoder writes field after field into one zeroed buffer of the final size. */
  method EncodeFrameBuffer(f: Frame, keys: seq<Bytes>) returns (r: Result<Bytes, Error>)
    requires forall k :: k in keys ==> k in f.metadata
    ensures r == EncodeFrame(f, keys)
  {
    var encodedMetadata := EncodeMetadataLoop(f.metadata, keys);
    match encodedMetadata
    case Err(e) =>
      r := Err(e);
    case Ok(metadata) =>
      if |metadata| > MAX_METADATA || |f.payload| > MAX_PAYLOAD {
        return Err(TooLarge);
      }
      var encoded := new Byte[HEADER + |metadata| + |f.payload|](_ => 0);
      ghost var was := encoded[..];
      WriteHeader(encoded, f, |metadata|);
      ghost var done := Header(f.msgType, f.correlation, |metadata|, |f.payload|);
      Fill(encoded[..], done, was, metadata);
      CopyInto(encoded, HEADER, metadata);
      done := done + metadata;
      Fill(encoded[..], done, was, f.payload);
      CopyInto(encoded, HEADER + |metadata|, f.payload);
      assert encoded[..] == done + f.payload;
      r := Ok(encoded[..]);
  }

  method WriteHeader(encoded: array<Byte>, f: Frame, metadataLength: nat)
    requires encoded.Length >= HEADER
    modifies encoded
    ensures encoded[..] == Header(f.msgType, f.correlation, metadataLength, |f.payload|) + old(encoded[HEADER..])
  {
    hide Be, Magic;
    ghost var was := encoded[..];
    WriteHeaderStart(encoded, f);
    ghost var done := Magic() + Be(VERSION, 2) + Be(f.msgType, 2);
    Fill(encoded[..], done, was, Be(f.correlation, 8));
    PutU64(encoded, 8, f.correlation);
    done := done + Be(f.correlation, 8);
    Fill(encoded[..], done, was, Be(metadataLength, 4));
    PutU32(encoded, 16, metadataLength);
    done := done + Be(metadataLength, 4);
    Fill(encoded[..], done, was, Be(|f.payload|, 8));
    PutU64(encoded, 20, |f.payload|);
    done := done + Be(|f.payload|, 8);
    assert was[HEADER..] == old(encoded[HEADER..]);
  }

  method WriteHeaderStart(encoded: array<Byte>, f: Frame)
    requires encoded.Length >= HEADER
    modifies encoded
    ensures encoded[..] == Magic() + Be(VERSION, 2) + Be(f.msgType, 2) + old(encoded[..])[8..]
  {
    hide Be, Magic;
    ghost var was := encoded[..];
    CopyInto(encoded, 0, Magic());
    ghost var done := Magic();
    Fill(encoded[..], done, was, Be(VERSION, 2));
    PutU16(encoded, 4, VERSION);
    done := done + Be(VERSION, 2);
    Fill(encoded[..], done, was, Be(f.msgType, 2));
    PutU16(encoded, 6, f.msgType);
  }

  /** Overwriting the next field extends the part of the buffer that is done. */
  lemma {:induction false} Fill(now: Bytes, done: Bytes, was: Bytes, field: Bytes)
    requires |done| + |field| <= |was| && now == done + was[|done|..]
    ensures now[..|done|] + field + now[|done| + |field|..] == done + field + was[|done| + |field|..]
  {
  }

  /** `read_frame` on a stream that ends after `stream`: three exact reads, the second and third sized by the header. */
  method ReadFrame(stream: Bytes) returns (r: Parsed)
    ensures r == Parse(stream)
  {
    if |stream| < HEADER {
      return Incomplete;
    }
    var header := stream[..HEADER];
    assert header[..4] == stream[..4] && header[4..6] == stream[4..6] && header[6..8] == stream[6..8];
    assert header[8..16] == stream[8..16] && header[16..20] == stream[16..20] && header[20..28] == stream[20..28];
    if header[..4] != Magic() {
      return Bad(InvalidMagic);
    }
    if GetU16(header[4..6]) != VERSION {
      return Bad(UnsupportedVersion);
    }
    var msgType := GetU16(header[6..8]);
    var correlation := GetU64(header[8..16]);
    var metadataLength := GetU32(header[16..20]);
    var payloadLength := GetU64(header[20..28]);
    if metadataLength > MAX_METADATA || payloadLength > MAX_PAYLOAD {
      return Bad(TooLarge);
    }
    if |stream| < HEADER + metadataLength || |stream| < HEADER + metadataLength + payloadLength {
      return Incomplete;
    }
    FieldBounds(stream);
    var metadata := stream[HEADER..HEADER + metadataLength];
    var payload := stream[HEADER + metadataLength..HEADER + metadataLength + payloadLength];
    var decoded := DecodeMetadataLoop(metadata);
    match decoded
    case Err(e) =>
      r := Bad(e);
    case Ok(m) =>
      r := Complete(Frame(msgType, correlation, m, payload), stream[HEADER + metadataLength + payloadLength..]);
  }
}
