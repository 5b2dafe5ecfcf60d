/** The wire format read the other way round: what the decoders accept, what they refuse, and what they make of it. */
module WireFormat {
  import opened Basics
  import opened BigEndian
  import opened Utf8
  import opened Codec
  import opened JavaCodec

  // Frames

  /** Where the fields of a header stand. */
  lemma {:induction false} HeaderLayout(t: U16, c: U64, m: nat, p: nat)
    requires m < 0x1_0000_0000 && p < 0x1_0000_0000_0000_0000
    ensures var h := Header(t, c, m, p);
            && h[..4] == [77, 65, 68, 82] && h[4..6] == [0, 1]
            && FromBe(h[6..8]) == t && FromBe(h[8..16]) == c && FromBe(h[16..20]) == m && FromBe(h[20..28]) == p
  {
    var h := Header(t, c, m, p);
    assert h[..HEADER] == h;
    HeaderSlices(h, t, c, m, p);
    Widths();
    DecodeEncode(t, 2);
    DecodeEncode(c, 8);
    DecodeEncode(m, 4);
    DecodeEncode(p, 8);
    assert Be(VERSION, 2) == [0, 1] by {
      assert Be(VERSION, 2) == Be(0, 1) + [1] && Be(0, 1) == Be(0, 0) + [0];
    }
    hide Header, Be, FromBe, Pow256;
  }

  /** The version field holds 1. */
  lemma {:induction false} VersionField(b: Bytes)
    requires |b| == 2
    ensures GetU16(b) == 1 <==> b == [0, 1]
  {
  }

  /** The first 28 bytes are a header that the decoder goes along with. */
  ghost predicate GoodHeader(b: Bytes) {
    && |b| >= 28 && b[..4] == [77, 65, 68, 82] && b[4..6] == [0, 1]
    && FromBe(b[16..20]) <= 0x10_0000 && FromBe(b[20..28]) <= 0x10_0000
  }

  /**
   What parsing says about any bytes: they are incomplete while the header or what it announces is; they are refused for
   the first thing that is wrong; and otherwise they are the encoding of the frame, with what follows left alone.
   */
  ghost predicate ParsedAs(b: Bytes, p: Parsed) {
    if |b| < 28 then p == Incomplete
    else if b[..4] != [77, 65, 68, 82] then p == Bad(InvalidMagic)
    else if b[4..6] != [0, 1] then p == Bad(UnsupportedVersion)
    else if !GoodHeader(b) then p == Bad(TooLarge)
    else
      var m, n := FromBe(b[16..20]), FromBe(b[20..28]);
      if |b| < 28 + m + n then p == Incomplete
      else
        match DecodeMetadata(b[28..28 + m])
        case Err(e) => p == Bad(e)
        case Ok(metadata) =>
          && p.Complete? && p.frame.metadata == metadata
          && |p.frame.payload| == n
          && b == Header(p.frame.msgType, p.frame.correlation, m, n) + b[28..28 + m] + p.frame.payload + p.rest
  }

  lemma {:induction false} HeaderOf(b: Bytes)
    requires GoodHeader(b)
    ensures GetU16(b[6..8]) < 0x1_0000 && FromBe(b[8..16]) < 0x1_0000_0000_0000_0000
    ensures Header(GetU16(b[6..8]), FromBe(b[8..16]), FromBe(b[16..20]), FromBe(b[20..28])) == b[..28]
  {
    FieldBounds(b);
    GetU16IsBigEndian(b[6..8]);
    EncodeDecode(b[6..8]);
    EncodeDecode(b[8..16]);
    EncodeDecode(b[16..20]);
    EncodeDecode(b[20..28]);
    assert Be(VERSION, 2) == [0, 1] by {
      assert Be(VERSION, 2) == Be(0, 1) + [1] && Be(0, 1) == Be(0, 0) + [0];
    }
    hide Be, FromBe, GetU16;
    assert b[..28] == b[..4] + b[4..6] + b[6..8] + b[8..16] + b[16..20] + b[20..28];
  }

  lemma {:induction false} HeaderChecks(b: Bytes)
    requires |b| >= 28
    ensures MetadataLength(b) == FromBe(b[16..20]) && PayloadLength(b) == FromBe(b[20..28])
    ensures HeaderError(b) ==
              if b[..4] != [77, 65, 68, 82] then Some(InvalidMagic)
              else if b[4..6] != [0, 1] then Some(UnsupportedVersion)
              else if !GoodHeader(b) then Some(TooLarge)
              else None
  {
    VersionField(b[4..6]);
    GetU32IsBigEndian(b[16..20]);
    hide FromBe, GetU16, GetU32;
  }

  lemma {:induction false} ParseMeaning(b: Bytes)
    ensures ParsedAs(b, Parse(b))
  {
    if |b| >= 28 {
      HeaderChecks(b);
      if GoodHeader(b) {
        HeaderOf(b);
        var m, n := FromBe(b[16..20]), FromBe(b[20..28]);
        hide Header, FromBe, GetU16, HeaderError, DecodeMetadata, MetadataLength, PayloadLength;
        if |b| >= 28 + m + n {
          FourParts(b, 28, 28 + m, 28 + m + n);
        }
      }
    }
    hide FromBe, GetU16, HeaderError, DecodeMetadata, MetadataLength, PayloadLength, GoodHeader;
  }

  lemma {:induction false} FourParts<T>(b: seq<T>, i: nat, j: nat, k: nat)
    requires i <= j <= k <= |b|
    ensures b == b[..i] + b[i..j] + b[j..k] + b[k..]
  {
  }

  // Metadata, line by line

  /** The lines of a text: each of the first ones is ended by a line feed, the last one by the end of the text. */
  function TextOf<T>(lf: T, lines: seq<seq<T>>, last: seq<T>): seq<T> {
    if lines == [] then last else lines[0] + [lf] + TextOf(lf, lines[1..], last)
  }

  /** A line with a key: an equals sign that is not its first character. */
  predicate Keyed<T(==)>(line: seq<T>, equals: T) {
    equals in line && line[0] != equals
  }

  /** Every line is empty or has a key. */
  predicate WellFormedLines<T(==)>(lines: seq<seq<T>>, equals: T) {
    forall i :: 0 <= i < |lines| ==> lines[i] == [] || Keyed(lines[i], equals)
  }

  /** Every text is made of lines. */
  lemma {:induction false} LinesOf<T>(lf: T, text: seq<T>) returns (lines: seq<seq<T>>, last: seq<T>)
    ensures text == TextOf(lf, lines, last)
    ensures (forall i :: 0 <= i < |lines| ==> lf !in lines[i]) && lf !in last
    decreases |text|
  {
    var end := Find(text, lf, 0);
    assert text[0..end] == text[..end];
    if end == |text| {
      lines, last := [], text;
      assert text[..end] == text;
    } else {
      var later;
      later, last := LinesOf(lf, text[end + 1..]);
      lines := [text[..end]] + later;
      assert lines[1..] == later;
      assert text == text[..end] + [lf] + text[end + 1..];
    }
  }

  function EntryOf(line: Bytes): Entry {
    var eq := Find(line, EQUALS, 0);
    if eq == |line| then Entry(line, []) else Entry(line[..eq], line[eq + 1..])
  }

  /** The entries of the lines that have one, in their order. */
  function EntriesIn(lines: seq<Bytes>): seq<Entry> {
    if lines == [] then []
    else if lines[0] == [] then EntriesIn(lines[1..])
    else [EntryOf(lines[0])] + EntriesIn(lines[1..])
  }

  lemma {:induction false} AddOneLine(acc: Metadata, line: Bytes)
    ensures line == [] ==> AddLine(acc, line) == Ok(acc)
    ensures line != [] ==>
              AddLine(acc, line) == if Keyed(line, EQUALS) then Ok(Added(acc, EntryOf(line))) else Err(MalformedMetadata)
  {
    var eq := Find(line, EQUALS, 0);
    assert line[0..eq] == line[..eq];
    assert EQUALS in line <==> eq < |line| by {
      if eq == |line| {
        assert line[..eq] == line;
      }
    }
  }

  lemma {:induction false} WellFormedCons<T>(lines: seq<seq<T>>, equals: T)
    requires lines != []
    ensures WellFormedLines(lines, equals) <==>
              (lines[0] == [] || Keyed(lines[0], equals)) && WellFormedLines(lines[1..], equals)
  {
    hide Keyed;
    assert forall i :: 1 <= i < |lines| ==> lines[i] == lines[1..][i - 1];
  }

  /** One line of the text, and how decoding goes on behind it. */
  lemma {:induction false} DecodeOneLine(encoded: Bytes, pos: nat, line: Bytes, rest: Bytes, acc: Metadata)
    requires LF !in line && pos <= |encoded| && encoded[pos..] == line + [LF] + rest
    ensures var next := pos + |line| + 1;
            && next <= |encoded| && encoded[next..] == rest
            && DecodeFrom(encoded, pos, acc) ==
                 match AddLine(acc, line)
                 case Err(e) => Err(e)
                 case Ok(added) => DecodeFrom(encoded, next, added)
  {
    hide AddLine;
    FindEnd(encoded, LF, pos, line, rest);
  }

  lemma {:induction false} DecodeLastLine(encoded: Bytes, pos: nat, last: Bytes, acc: Metadata)
    requires LF !in last && pos <= |encoded| && encoded[pos..] == last
    ensures DecodeFrom(encoded, pos, acc) == AddLine(acc, last)
  {
    hide AddLine;
    if last == [] {
      AddOneLine(acc, last);
    } else {
      assert encoded[pos..] == last + [];
      FindSkips(encoded, LF, pos, last, []);
      assert encoded[pos..|encoded|] == last;
    }
  }

  lemma {:induction false} DecodeLinesFrom(encoded: Bytes, pos: nat, lines: seq<Bytes>, last: Bytes, acc: Metadata)
    requires (forall i :: 0 <= i < |lines| ==> LF !in lines[i]) && LF !in last
    requires pos <= |encoded| && encoded[pos..] == TextOf(LF, lines, last)
    ensures DecodeFrom(encoded, pos, acc) ==
              if WellFormedLines(lines + [last], EQUALS) then Ok(FirstWins(EntriesIn(lines + [last]), acc))
              else Err(MalformedMetadata)
    decreases |lines|
  {
    hide DecodeFrom, AddLine, Keyed, EntryOf, WellFormedLines;
    var all := lines + [last];
    WellFormedCons(all, EQUALS);
    AddOneLine(acc, all[0]);
    if lines == [] {
      DecodeLastLine(encoded, pos, last, acc);
      NoLines(EQUALS);
      assert all[1..] == [];
    } else {
      assert all[1..] == lines[1..] + [last];
      DecodeOneLine(encoded, pos, lines[0], TextOf(LF, lines[1..], last), acc);
      var next := pos + |lines[0]| + 1;
      if lines[0] == [] {
        DecodeLinesFrom(encoded, next, lines[1..], last, acc);
      } else if Keyed(lines[0], EQUALS) {
        DecodeLinesFrom(encoded, next, lines[1..], last, Added(acc, EntryOf(lines[0])));
      }
    }
  }

  lemma {:induction false} NoLines(equals: Byte)
    ensures WellFormedLines<Byte>([], equals)
  {
  }

  /**
   The Kernel decodes any text of metadata line by line: empty lines count for nothing, a line without a key refuses the
   whole text, and of several lines with one key the first decides.
   */
  lemma {:induction false} KernelLines(lines: seq<Bytes>, last: Bytes)
    requires (forall i :: 0 <= i < |lines| ==> LF !in lines[i]) && LF !in last
    ensures var all := lines + [last];
            DecodeMetadata(TextOf(LF, lines, last)) ==
              if WellFormedLines(all, EQUALS) then Ok(FirstWins(EntriesIn(all), map[])) else Err(MalformedMetadata)
  {
    var text := TextOf(LF, lines, last);
    assert text[0..] == text;
    DecodeLinesFrom(text, 0, lines, last, map[]);
  }

  // The client's side

  function JEntryOf(line: JString): JEntry {
    var eq := Find(line, EQUALS, 0);
    if eq == |line| then JEntry(line, []) else JEntry(line[..eq], line[eq + 1..])
  }

  function JEntriesIn(lines: seq<JString>): seq<JEntry> {
    if lines == [] then []
    else if lines[0] == [] then JEntriesIn(lines[1..])
    else [JEntryOf(lines[0])] + JEntriesIn(lines[1..])
  }

  lemma {:induction false} JAddOneLine(acc: JMetadata, line: JString)
    ensures line == [] ==> JAddLine(acc, line) == Ok(acc)
    ensures line != [] ==>
              JAddLine(acc, line) ==
                if Keyed(line, EQUALS) then Ok(acc[JEntryOf(line).key := JEntryOf(line).value]) else Err(MalformedMetadata)
  {
    var eq := Find(line, EQUALS, 0);
    assert line[0..eq] == line[..eq];
    assert EQUALS in line <==> eq < |line| by {
      if eq == |line| {
        assert line[..eq] == line;
      }
    }
  }

  lemma {:induction false} SplitsLast(text: JString, pos: nat, last: JString)
    requires LF !in last && pos <= |text| && text[pos..] == last
    ensures SplitLines(text, pos) == [last]
  {
    assert text[pos..] == last + [];
    FindSkips(text, LF, pos, last, []);
    assert text[pos..|text|] == last;
  }

  lemma {:induction false} SplitsIntoLines(text: JString, pos: nat, lines: seq<JString>, last: JString)
    requires (forall i :: 0 <= i < |lines| ==> LF !in lines[i]) && LF !in last
    requires pos <= |text| && text[pos..] == TextOf(LF, lines, last)
    ensures SplitLines(text, pos) == lines + [last]
    decreases |lines|
  {
    hide SplitLines, Find;
    if lines == [] {
      SplitsLast(text, pos, last);
    } else {
      var rest := TextOf(LF, lines[1..], last);
      FindEnd(text, LF, pos, lines[0], rest);
      SplitStep(text, pos);
      SplitsIntoLines(text, pos + |lines[0]| + 1, lines[1..], last);
      assert lines + [last] == [lines[0]] + (lines[1..] + [last]);
    }
  }

  lemma {:induction false} JAddAll(acc: JMetadata, lines: seq<JString>)
    ensures JAddLines(acc, lines) ==
              if WellFormedLines(lines, EQUALS) then Ok(LastWins(JEntriesIn(lines), acc)) else Err(MalformedMetadata)
    decreases |lines|
  {
    if lines != [] {
      hide JAddLine, Keyed, JEntryOf, WellFormedLines;
      WellFormedCons(lines, EQUALS);
      JAddOneLine(acc, lines[0]);
      if lines[0] == [] {
        JAddAll(acc, lines[1..]);
      } else if Keyed(lines[0], EQUALS) {
        var e := JEntryOf(lines[0]);
        JAddAll(acc[e.key := e.value], lines[1..]);
        assert JEntriesIn(lines)[1..] == JEntriesIn(lines[1..]);
      }
    }
  }

  /** Of several entries with one key the last decides. */
  lemma {:induction false} LastWinsAt(entries: seq<JEntry>, acc: JMetadata, i: nat)
    requires i < |entries| && forall k :: i < k < |entries| ==> entries[k].key != entries[i].key
    ensures var m := LastWins(entries, acc); entries[i].key in m && m[entries[i].key] == entries[i].value
    decreases |entries|
  {
    var next := acc[entries[0].key := entries[0].value];
    if i > 0 {
      LastWinsAt(entries[1..], next, i - 1);
    } else {
      LastWinsMeaning(entries[1..], next);
    }
  }

  /** The client decodes line by line as well, but of several lines with one key the last decides. */
  lemma {:induction false} ClientLines(encoded: Bytes, lines: seq<JString>, last: JString)
    requires (forall i :: 0 <= i < |lines| ==> LF !in lines[i]) && LF !in last
    requires FromUtf8(encoded) == TextOf(LF, lines, last)
    ensures var all := lines + [last];
            JDecodeMetadata(encoded) ==
              if WellFormedLines(all, EQUALS) then Ok(LastWins(JEntriesIn(all), map[])) else Err(MalformedMetadata)
  {
    var text := FromUtf8(encoded);
    assert text[0..] == text;
    SplitsIntoLines(text, 0, lines, last);
    JAddAll(map[], lines + [last]);
  }

  /** On any bytes the two decoders agree about everything but the metadata. */
  lemma {:induction false} SameFraming(b: Bytes)
    ensures Parse(b).Incomplete? <==> JParse(b).JIncomplete?
    ensures |b| >= 28 && !GoodHeader(b) ==> Parse(b).Bad? && JParse(b) == JBad(Parse(b).error)
    ensures Parse(b).Complete? && JParse(b).JComplete? ==>
              var f, j := Parse(b).frame, JParse(b).frame;
              && f.msgType == j.msgType && f.correlation == Unsigned64(j.correlation) && f.payload == j.payload
              && Parse(b).rest == JParse(b).rest
  {
    if |b| >= 28 {
      SameHeaderChecks(b);
      HeaderChecks(b);
    }
    hide HeaderError, JHeaderError, DecodeMetadata, JDecodeMetadata, GetU16, GetU32, FromBe, Signed32;
  }

  /** What the two encoders accept as metadata. */
  lemma {:induction false} AcceptedEntries(m: Metadata, keys: seq<Bytes>, entries: seq<JEntry>)
    requires Lists(keys, m)
    ensures EncodeMetadata(m, keys).Ok? <==>
              forall k :: k in m ==> k != [] && (forall b :: b in k ==> b != 61 && b != 10 && b != 13)
                                     && (forall b :: b in m[k] ==> b != 10 && b != 13)
    ensures JEncodeMetadata(entries).Ok? <==>
              forall i :: 0 <= i < |entries| ==>
                && (exists u :: u in entries[i].key && !Whitespace(u))
                && (forall u :: u in entries[i].key ==> u != 61 && u != 10 && u != 13)
                && (forall u :: u in entries[i].value ==> u != 10 && u != 13)
  {
    forall k | k in m
      ensures ValidEntry(k, m[k]) <==>
                k != [] && (forall b :: b in k ==> b != 61 && b != 10 && b != 13) && (forall b :: b in m[k] ==> b != 10 && b != 13)
    {
    }
  }

  /**
   Which frames the two encoders accept: valid metadata of at most 1 MiB and a payload of at most 1 MiB, both included; and
   what they write for them.
   */
  lemma {:induction false} AcceptedFrames(f: Frame, keys: seq<Bytes>, j: JFrame, entries: seq<JEntry>)
    requires forall k :: k in keys ==> k in f.metadata
    ensures EncodeFrame(f, keys) ==
              match EncodeMetadata(f.metadata, keys)
              case Err(e) => Err(e)
              case Ok(m) =>
                if |m| <= 0x10_0000 && |f.payload| <= 0x10_0000 then
                  Ok(Header(f.msgType, f.correlation, |m|, |f.payload|) + m + f.payload)
                else Err(TooLarge)
    ensures JEncodeFrame(j, entries) ==
              match JEncodeMetadata(entries)
              case Err(e) => Err(e)
              case Ok(m) =>
                if |m| <= 0x10_0000 && |j.payload| <= 0x10_0000 then
                  Ok(Header(j.msgType % 0x1_0000, j.correlation % 0x1_0000_0000_0000_0000, |m|, |j.payload|) + m + j.payload)
                else Err(TooLarge)
  {
    hide Header, EncodeMetadata, JEncodeMetadata;
  }

  /** One character of every length, as RFC 3629, section 3, encodes it. */
  lemma {:induction false} EncodedSamples()
    ensures ToUtf8([0x41]) == [0x41]
    ensures ToUtf8([0xE9]) == [0xC3, 0xA9]
    ensures ToUtf8([0x20AC]) == [0xE2, 0x82, 0xAC]
    ensures ToUtf8([0xD800, 0xDF48]) == [0xF0, 0x90, 0x8D, 0x88]
  {
    assert ToUtf8([]) == [];
  }
}
