/** The two implementations of the wire format read each other's frames, and exactly when they mean the same by them. */
module CodecAgreement {
  import opened Basics
  import opened BigEndian
  import opened Utf8
  import opened Codec
  import opened JavaCodec

  /** A byte string and a Java string that translate to each other. */
  predicate SameText(b: Bytes, s: JString) {
    FromUtf8(b) == s && ToUtf8(s) == b
  }

  ghost predicate SameMetadata(m: Metadata, j: JMetadata) {
    && (forall k :: k in m ==> FromUtf8(k) in j && SameText(k, FromUtf8(k)) && SameText(m[k], j[FromUtf8(k)]))
    && (forall s :: s in j ==> ToUtf8(s) in m && SameText(ToUtf8(s), s))
  }

  ghost predicate SameFrame(f: Frame, j: JFrame) {
    f.msgType == j.msgType && f.correlation == Unsigned64(j.correlation) && f.payload == j.payload
    && SameMetadata(f.metadata, j.metadata)
  }

  // From the Kernel to the client

  function FromEntry(e: Entry): JEntry {
    JEntry(FromUtf8(e.key), FromUtf8(e.value))
  }

  function FromEntries(entries: seq<Entry>): (r: seq<JEntry>)
    ensures |r| == |entries|
    ensures forall i :: 0 <= i < |entries| ==> r[i] == FromEntry(entries[i])
  {
    seq(|entries|, i requires 0 <= i < |entries| => FromEntry(entries[i]))
  }

  lemma {:induction false} LineParts<T>(a: seq<T>, b: seq<T>, c: seq<T>, d: seq<T>, e: seq<T>)
    ensures a + b + c + d + e == a + b + (c + d + e)
  {
  }

  lemma {:induction false} FromLine(e: Entry, rest: Bytes)
    ensures FromUtf8(Line(e) + rest) == JLine(FromEntry(e)) + FromUtf8(rest)
  {
    hide FromUtf8;
    DecodeBoundary(e.key, EQUALS, e.value + [LF] + rest);
    DecodeBoundary(e.value, LF, rest);
    LineParts(e.key, [EQUALS], e.value, [LF], rest);
    LineParts(FromUtf8(e.key), [EQUALS], FromUtf8(e.value), [LF], FromUtf8(rest));
  }

  /** The decoded text of a metadata block is the text of the decoded entries. */
  lemma {:induction false} FromLines(entries: seq<Entry>)
    ensures FromUtf8(EntryLines(entries)) == JText(FromEntries(entries))
  {
    if entries != [] {
      FromLine(entries[0], EntryLines(entries[1..]));
      FromLines(entries[1..]);
      hide FromUtf8, Line, JLine, FromEntry;
      assert FromEntries(entries)[1..] == FromEntries(entries[1..]);
    }
  }

  lemma {:induction false} FromValidEntry(e: Entry)
    requires ValidEntry(e.key, e.value)
    ensures Clean(FromEntry(e))
  {
    AsciiOfDecoded(e.key, EQUALS);
    AsciiOfDecoded(e.key, LF);
    AsciiOfDecoded(e.value, LF);
  }

  lemma {:induction false} FromValidEntries(entries: seq<Entry>)
    requires forall i :: 0 <= i < |entries| ==> ValidEntry(entries[i].key, entries[i].value)
    ensures forall i :: 0 <= i < |entries| ==> Clean(FromEntries(entries)[i])
  {
    forall i | 0 <= i < |entries|
      ensures Clean(FromEntries(entries)[i])
    {
      FromValidEntry(entries[i]);
    }
  }

  /** The client never refuses metadata that the Kernel encoded. */
  lemma {:induction false} ClientDecodes(entries: seq<Entry>)
    requires forall i :: 0 <= i < |entries| ==> ValidEntry(entries[i].key, entries[i].value)
    ensures JDecodeMetadata(EntryLines(entries)) == Ok(LastWins(FromEntries(entries), map[]))
  {
    FromLines(entries);
    var j := FromEntries(entries);
    FromValidEntries(entries);
    hide Clean, ValidEntry, FromEntry, FromUtf8, JText, EntryLines, SplitLines, JAddLines;
    assert JText(j)[0..] == JText(j);
    JDecodeEntries(JText(j), 0, j, map[]);
  }

  ghost predicate AllValidText(m: Metadata) {
    forall k :: k in m ==> Valid(k) && Valid(m[k])
  }

  lemma {:induction false} ListedKeys(m: Metadata, keys: seq<Bytes>, k: Bytes) returns (i: nat)
    requires Lists(keys, m) && k in m
    ensures i < |keys| && keys[i] == k
  {
    i :| 0 <= i < |keys| && keys[i] == k;
  }

  lemma {:induction false} SameTextIff(b: Bytes)
    ensures SameText(b, FromUtf8(b)) <==> Valid(b)
  {
    BytesRoundTrip(b);
  }

  /** The client's map, entry by entry, when the keys stay apart. */
  lemma {:induction false} ClientMap(m: Metadata, keys: seq<Bytes>, j: JMetadata)
    requires Lists(keys, m) && AllValidText(m) && j == LastWins(FromEntries(Entries(m, keys)), map[])
    ensures forall k :: k in m ==> FromUtf8(k) in j && j[FromUtf8(k)] == FromUtf8(m[k])
    ensures forall s :: s in j ==> exists k :: k in m && FromUtf8(k) == s
  {
    var entries := FromEntries(Entries(m, keys));
    LastWinsMeaning(entries, map[]);
    DistinctKeys(m, keys);
    hide AllValidText, LastWins, FromUtf8;
    forall k | k in m
      ensures FromUtf8(k) in j && j[FromUtf8(k)] == FromUtf8(m[k])
    {
      var i := ListedKeys(m, keys, k);
      assert entries[i] == JEntry(FromUtf8(k), FromUtf8(m[k]));
    }
    forall s | s in j
      ensures exists k :: k in m && FromUtf8(k) == s
    {
      var i :| 0 <= i < |keys| && entries[i].key == s;
      assert keys[i] in m && FromUtf8(keys[i]) == s;
    }
  }

  /** What arrives at the client is the same metadata exactly when all of it is well-formed UTF-8. */
  lemma {:induction false} ArrivesAtClient(m: Metadata, keys: seq<Bytes>)
    requires Lists(keys, m)
    ensures SameMetadata(m, LastWins(FromEntries(Entries(m, keys)), map[])) <==> AllValidText(m)
  {
    var j := LastWins(FromEntries(Entries(m, keys)), map[]);
    hide LastWins, FromEntries, Entries, FromUtf8, ToUtf8, Valid, Lists;
    if SameMetadata(m, j) {
      SameIsValid(m, j);
    }
    hide SameMetadata;
    if AllValidText(m) {
      ClientMap(m, keys, j);
      ValidIsSame(m, j);
    }
  }

  lemma {:induction false} SameIsValid(m: Metadata, j: JMetadata)
    requires SameMetadata(m, j)
    ensures AllValidText(m)
  {
    hide FromUtf8, ToUtf8, Valid;
    forall k | k in m
      ensures Valid(k) && Valid(m[k])
    {
      assert FromUtf8(k) in j && SameText(k, FromUtf8(k)) && SameText(m[k], j[FromUtf8(k)]);
      SameTextIff(k);
      SameTextIff(m[k]);
    }
  }

  lemma {:induction false} ValidIsSame(m: Metadata, j: JMetadata)
    requires AllValidText(m)
    requires forall k :: k in m ==> FromUtf8(k) in j && j[FromUtf8(k)] == FromUtf8(m[k])
    requires forall s :: s in j ==> exists k :: k in m && FromUtf8(k) == s
    ensures SameMetadata(m, j)
  {
    hide FromUtf8, ToUtf8, Valid;
    forall k | k in m
      ensures SameText(k, FromUtf8(k)) && SameText(m[k], j[FromUtf8(k)])
    {
      SameTextIff(k);
      SameTextIff(m[k]);
    }
    hide AllValidText;
    forall s | s in j
      ensures ToUtf8(s) in m && SameText(ToUtf8(s), s)
    {
      var k :| k in m && FromUtf8(k) == s;
      assert SameText(k, FromUtf8(k));
    }
  }

  lemma {:induction false} DistinctKeys(m: Metadata, keys: seq<Bytes>)
    requires Lists(keys, m) && AllValidText(m)
    ensures var j := FromEntries(Entries(m, keys));
            forall a, b :: 0 <= a < b < |j| ==> j[a].key != j[b].key
  {
    forall a, b | 0 <= a < b < |keys|
      ensures FromUtf8(keys[a]) != FromUtf8(keys[b])
    {
      assert keys[a] in m && keys[b] in m;
      BytesRoundTrip(keys[a]);
      BytesRoundTrip(keys[b]);
    }
  }

  /**
   The client decodes every frame that the Kernel encodes, to the same type, 64-bit correlation and payload; the
   metadata is the same exactly when it is well-formed UTF-8.
   */
  lemma {:induction false} KernelToClient(f: Frame, keys: seq<Bytes>, suffix: Bytes)
    requires Legal(f, keys)
    ensures var p := JParse(Encoded(f, keys) + suffix);
            && p.JComplete? && p.rest == suffix
            && p.frame.msgType == f.msgType && Unsigned64(p.frame.correlation) == f.correlation
            && p.frame.payload == f.payload
            && (SameFrame(f, p.frame) <==> AllValidText(f.metadata))
  {
    JParseParts(f.msgType, f.correlation, Lines(f.metadata, keys), f.payload, suffix);
    var entries := Entries(f.metadata, keys);
    forall i | 0 <= i < |entries|
      ensures ValidEntry(entries[i].key, entries[i].value)
    {
      assert keys[i] in keys;
    }
    hide ValidEntry;
    ClientDecodes(entries);
    ArrivesAtClient(f.metadata, keys);
    hide JParse, Header, JDecodeMetadata, SameMetadata, AllValidText, LastWins;
  }

  // From the client to the Kernel

  function ToEntry(e: JEntry): Entry {
    Entry(ToUtf8(e.key), ToUtf8(e.value))
  }

  function ToEntries(entries: seq<JEntry>): (r: seq<Entry>)
    ensures |r| == |entries|
    ensures forall i :: 0 <= i < |entries| ==> r[i] == ToEntry(entries[i])
  {
    seq(|entries|, i requires 0 <= i < |entries| => ToEntry(entries[i]))
  }

  lemma {:induction false} ToLine(e: JEntry, rest: JString)
    ensures ToUtf8(JLine(e) + rest) == Line(ToEntry(e)) + ToUtf8(rest)
  {
    hide ToUtf8;
    EncodeBoundary(e.key, EQUALS, e.value + [LF] + rest);
    EncodeBoundary(e.value, LF, rest);
    LineParts(e.key, [EQUALS], e.value, [LF], rest);
    LineParts(ToUtf8(e.key), [EQUALS], ToUtf8(e.value), [LF], ToUtf8(rest));
  }

  lemma {:induction false} ToLines(entries: seq<JEntry>)
    ensures ToUtf8(JText(entries)) == EntryLines(ToEntries(entries))
  {
    if entries != [] {
      ToLine(entries[0], JText(entries[1..]));
      ToLines(entries[1..]);
      hide ToUtf8, Line, JLine, ToEntry;
      assert ToEntries(entries)[1..] == ToEntries(entries[1..]);
    }
  }

  lemma {:induction false} ToValidEntry(e: JEntry)
    requires ValidJEntry(e)
    ensures ValidEntry(ToEntry(e).key, ToEntry(e).value)
  {
    AsciiOfEncoded(e.key, EQUALS);
    AsciiOfEncoded(e.key, LF);
    AsciiOfEncoded(e.key, CR);
    AsciiOfEncoded(e.value, LF);
    AsciiOfEncoded(e.value, CR);
    assert e.key != [];
  }

  lemma {:induction false} ToValidEntries(entries: seq<JEntry>)
    requires AllValidJ(entries)
    ensures forall i :: 0 <= i < |entries| ==> ValidEntry(ToEntries(entries)[i].key, ToEntries(entries)[i].value)
  {
    forall i | 0 <= i < |entries|
      ensures ValidEntry(ToEntries(entries)[i].key, ToEntries(entries)[i].value)
    {
      ToValidEntry(entries[i]);
    }
  }

  lemma {:induction false} KernelDecodes(entries: seq<JEntry>)
    requires AllValidJ(entries)
    ensures DecodeMetadata(ToUtf8(JText(entries))) == Ok(FirstWins(ToEntries(entries), map[]))
  {
    ToLines(entries);
    var c := ToEntries(entries);
    ToValidEntries(entries);
    hide ValidEntry, ToEntry, ToUtf8, JText, EntryLines, DecodeFrom;
    assert EntryLines(c)[0..] == EntryLines(c);
    DecodeEntries(EntryLines(c), 0, c, map[]);
  }

  ghost predicate AllScalars(j: JMetadata) {
    forall k :: k in j ==> Scalars(k) && Scalars(j[k])
  }

  lemma {:induction false} ToDistinctKeys(j: JMetadata, entries: seq<JEntry>)
    requires JLists(entries, j) && AllScalars(j)
    ensures var c := ToEntries(entries); forall a, b :: 0 <= a < b < |c| ==> c[a].key != c[b].key
  {
    forall a, b | 0 <= a < b < |entries|
      ensures ToUtf8(entries[a].key) != ToUtf8(entries[b].key)
    {
      StringRoundTrip(entries[a].key);
      StringRoundTrip(entries[b].key);
    }
  }

  lemma {:induction false} SameTextFrom(s: JString)
    ensures SameText(ToUtf8(s), s) <==> Scalars(s)
  {
    StringRoundTrip(s);
  }

  /** The Kernel's map, entry by entry, when the keys stay apart. */
  lemma {:induction false} KernelMap(j: JMetadata, entries: seq<JEntry>, m: Metadata)
    requires JLists(entries, j) && AllScalars(j) && m == FirstWins(ToEntries(entries), map[])
    ensures forall s :: s in j ==> ToUtf8(s) in m && m[ToUtf8(s)] == ToUtf8(j[s])
    ensures forall k :: k in m ==> exists s :: s in j && ToUtf8(s) == k
  {
    var c := ToEntries(entries);
    FirstWinsMeaning(c, map[]);
    ToDistinctKeys(j, entries);
    hide AllScalars, FirstWins, ToUtf8;
    forall s | s in j
      ensures ToUtf8(s) in m && m[ToUtf8(s)] == ToUtf8(j[s])
    {
      var i :| 0 <= i < |entries| && entries[i].key == s;
      assert c[i] == Entry(ToUtf8(s), ToUtf8(j[s]));
    }
    forall k | k in m
      ensures exists s :: s in j && ToUtf8(s) == k
    {
      var i :| 0 <= i < |entries| && c[i].key == k;
      assert entries[i].key in j && ToUtf8(entries[i].key) == k;
    }
  }

  /** What arrives at the Kernel is the same metadata exactly when no surrogate in it stands alone. */
  lemma {:induction false} ArrivesAtKernel(j: JMetadata, entries: seq<JEntry>)
    requires JLists(entries, j)
    ensures SameMetadata(FirstWins(ToEntries(entries), map[]), j) <==> AllScalars(j)
  {
    var m := FirstWins(ToEntries(entries), map[]);
    hide FirstWins, ToEntries, FromUtf8, ToUtf8, Scalars, JLists;
    if SameMetadata(m, j) {
      forall s | s in j
        ensures Scalars(s) && Scalars(j[s])
      {
        SameTextFrom(s);
        assert ToUtf8(s) in m && SameText(ToUtf8(s), s);
        assert SameText(m[ToUtf8(s)], j[s]);
        SameTextFrom(j[s]);
      }
    }
    if AllScalars(j) {
      KernelMap(j, entries, m);
      forall s | s in j
        ensures SameText(ToUtf8(s), s) && SameText(ToUtf8(j[s]), j[s])
      {
        SameTextFrom(s);
        SameTextFrom(j[s]);
      }
      hide AllScalars;
      forall k | k in m
        ensures FromUtf8(k) in j && SameText(k, FromUtf8(k)) && SameText(m[k], j[FromUtf8(k)])
      {
        var s :| s in j && ToUtf8(s) == k;
        assert SameText(k, s);
      }
    }
  }

  /** The bytes that the client puts on the wire. */
  lemma {:induction false} ClientBytes(j: JFrame, entries: seq<JEntry>)
    requires JEncodeFrame(j, entries).Ok?
    ensures AllValidJ(entries)
    ensures |ToUtf8(JText(entries))| <= MAX_METADATA && |j.payload| <= MAX_PAYLOAD
    ensures var m := ToUtf8(JText(entries));
            JEncodeFrame(j, entries).value ==
              Header(Unsigned16(j.msgType), Unsigned64(j.correlation), |m|, |j.payload|) + m + j.payload
  {
    hide Header, ToUtf8, JText, Unsigned16, Unsigned64, AllValidJ;
  }

  /** What the Kernel reads from a frame of the client, whatever its metadata. */
  function AtKernel(j: JFrame, entries: seq<JEntry>): Frame {
    Frame(Unsigned16(j.msgType), Unsigned64(j.correlation), FirstWins(ToEntries(entries), map[]), j.payload)
  }

  lemma {:induction false} KernelParses(j: JFrame, entries: seq<JEntry>, suffix: Bytes)
    requires JEncodeFrame(j, entries).Ok?
    ensures Parse(JEncodeFrame(j, entries).value + suffix) == Complete(AtKernel(j, entries), suffix)
  {
    ClientBytes(j, entries);
    KernelDecodes(entries);
    hide Parse, Header, DecodeMetadata, JEncodeFrame, ToUtf8, JText, FirstWins, ToEntries, Unsigned16, Unsigned64, AllValidJ;
    ParseParts(Unsigned16(j.msgType), Unsigned64(j.correlation), ToUtf8(JText(entries)), j.payload, suffix);
  }

  lemma {:induction false} SameAtKernel(j: JFrame, entries: seq<JEntry>)
    requires JLists(entries, j.metadata)
    ensures SameFrame(AtKernel(j, entries), j) <==> 0 <= j.msgType < 0x1_0000 && AllScalars(j.metadata)
  {
    hide SameMetadata, AllScalars, FirstWins, ToEntries, JLists, Unsigned16, Unsigned64;
    ArrivesAtKernel(j.metadata, entries);
    FitsSixteenBits(j.msgType);
  }

  lemma {:induction false} FitsSixteenBits(x: Int32)
    ensures Unsigned16(x) == x <==> 0 <= x < 0x1_0000
  {
  }

  /**
   The Kernel decodes every frame that the client encodes; it reads the same frame exactly when the type fits 16 bits and
   no surrogate in the metadata stands alone.
   */
  lemma {:induction false} ClientToKernel(j: JFrame, entries: seq<JEntry>, suffix: Bytes)
    requires JLists(entries, j.metadata) && JEncodeFrame(j, entries).Ok?
    ensures var p := Parse(JEncodeFrame(j, entries).value + suffix);
            && p.Complete? && p.rest == suffix
            && (SameFrame(p.frame, j) <==> 0 <= j.msgType < 0x1_0000 && AllScalars(j.metadata))
  {
    hide Parse, JEncodeFrame, SameFrame, AllScalars, AtKernel, JLists;
    KernelParses(j, entries, suffix);
    SameAtKernel(j, entries);
  }
}
