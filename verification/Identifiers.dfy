/** A set of identifiers on its whole way from a client's request to the choice of an engine. */
module Identifiers {
  import opened Basics
  import opened StoreModel
  import opened Selection
  import opened Utf8
  import opened Codec
  import opened JavaCodec
  import opened CodecAgreement

  /** What the request record accepts as an identifier. */
  predicate ValidIdentifier(s: JString) {
    !Blank(s) && COMMA !in s && LF !in s && CR !in s
  }

  /** The comma-separated list; the client sorts the set first, and the theorems hold for every order. */
  function JJoin(ids: seq<JString>): JString {
    if ids == [] then []
    else if |ids| == 1 then ids[0]
    else ids[0] + [COMMA] + JJoin(ids[1..])
  }

  function ToUtf8s(ids: seq<JString>): (r: seq<Bytes>)
    ensures |r| == |ids|
    ensures forall i :: 0 <= i < |ids| ==> r[i] == ToUtf8(ids[i])
  {
    seq(|ids|, i requires 0 <= i < |ids| => ToUtf8(ids[i]))
  }

  /** The database binds text as a C string, which ends at the first NUL. */
  function Stored(text: Bytes): (r: Bytes)
    ensures r <= text && NUL !in r
    ensures r == text || text[|r|] == NUL
  {
    text[..Find(text, NUL, 0)]
  }

  lemma {:induction false} JoinEncodes(ids: seq<JString>)
    ensures ToUtf8(JJoin(ids)) == JoinCsv(ToUtf8s(ids))
  {
    if |ids| == 1 {
      assert ToUtf8s(ids) == [ToUtf8(ids[0])];
    } else if |ids| > 1 {
      EncodeBoundary(ids[0], COMMA, JJoin(ids[1..]));
      JoinEncodes(ids[1..]);
      assert ToUtf8s(ids)[1..] == ToUtf8s(ids[1..]);
    }
  }

  lemma {:induction false} IdentifierBytes(s: JString)
    requires ValidIdentifier(s)
    ensures Identifier(ToUtf8(s))
  {
    AsciiOfEncoded(s, COMMA);
    assert s != [];
  }

  lemma {:induction false} JoinHasNul(values: seq<Bytes>)
    ensures NUL in JoinCsv(values) <==> exists i :: 0 <= i < |values| && NUL in values[i]
  {
    if |values| > 1 {
      JoinHasNul(values[1..]);
      if i :| 0 <= i < |values| && NUL in values[i] {
        assert i > 0 ==> NUL in values[1..][i - 1];
      }
      if i :| 0 <= i < |values| - 1 && NUL in values[1..][i] {
        assert NUL in values[i + 1];
      }
    }
  }

  predicate NulFree(values: seq<Bytes>) {
    forall i :: 0 <= i < |values| ==> NUL !in values[i]
  }

  lemma {:induction false} StoredHasNoNul(text: Bytes, values: seq<Bytes>)
    requires SplitCsv(Stored(text)) == values
    ensures NulFree(values)
  {
    FieldsAreIdentifiers(Stored(text), 0);
    forall i | 0 <= i < |values|
      ensures NUL !in values[i]
    {
      assert values[i] in SplitCsv(Stored(text));
    }
  }

  /** Joined, stored and split again, a list of identifiers is unchanged exactly when no NUL occurs in it. */
  lemma {:induction false} StoredListIsExact(values: seq<Bytes>)
    requires forall v :: v in values ==> Identifier(v)
    ensures SplitCsv(Stored(JoinCsv(values))) == values <==> NulFree(values)
  {
    var text := JoinCsv(values);
    JoinHasNul(values);
    if NulFree(values) {
      SplitJoin(values);
    } else if SplitCsv(Stored(text)) == values {
      StoredHasNoNul(text, values);
    }
  }

  /** The list, as the Kernel stores and splits it. */
  lemma {:induction false} ListArrives(ids: seq<JString>)
    requires forall i :: 0 <= i < |ids| ==> ValidIdentifier(ids[i])
    ensures SplitCsv(Stored(ToUtf8(JJoin(ids)))) == ToUtf8s(ids) <==> NulFree(ToUtf8s(ids))
  {
    JoinEncodes(ids);
    forall v | v in ToUtf8s(ids)
      ensures Identifier(v)
    {
      var i :| 0 <= i < |ids| && v == ToUtf8(ids[i]);
      IdentifierBytes(ids[i]);
    }
    StoredListIsExact(ToUtf8s(ids));
  }

  // The metadata field that carries the list

  const REQUIRED_CAPABILITIES: JString := Ascii("required_capabilities")
  const ELIGIBLE_ENGINE_IDS: JString := Ascii("eligible_engine_ids")

  /** A name in ASCII without a question mark, which no other name can turn into on its way. */
  predicate FieldName(field: JString) {
    forall u :: u in field ==> u < 0x80 && u != QUESTION
  }

  lemma {:induction false} RequestFields()
    ensures FieldName(REQUIRED_CAPABILITIES) && FieldName(ELIGIBLE_ENGINE_IDS)
  {
  }

  lemma {:induction false} FieldNameIsKept(field: JString)
    requires FieldName(field)
    ensures ToUtf8(field) == field && Scalars(field)
  {
    if field != [] {
      assert field[0] in field;
      assert Width(field) == 1 && EncodeFirst(field) == [field[0]];
      assert forall u :: u in field[1..] ==> u in field;
      FieldNameIsKept(field[1..]);
      assert field == [field[0]] + field[1..];
    }
  }

  lemma {:induction false} FieldNameIsUnique(field: JString, other: JString)
    requires FieldName(field) && ToUtf8(other) == ToUtf8(field)
    ensures other == field
  {
    FieldNameIsKept(field);
    if !Scalars(other) {
      LoneSurrogateShows(other);
      assert false;
    }
    StringRoundTrip(other);
    StringRoundTrip(field);
  }

  /** Such a field of the client's metadata reaches the Kernel under its name, whatever the other fields are. */
  lemma {:induction false} FieldArrives(j: JMetadata, entries: seq<JEntry>, field: JString)
    requires JLists(entries, j) && field in j && FieldName(field)
    ensures var m := FirstWins(ToEntries(entries), map[]);
            ToUtf8(field) in m && m[ToUtf8(field)] == ToUtf8(j[field])
  {
    var i :| 0 <= i < |entries| && entries[i].key == field;
    forall k | 0 <= k < i
      ensures ToEntries(entries)[k].key != ToUtf8(field)
    {
      if ToUtf8(entries[k].key) == ToUtf8(field) {
        FieldNameIsUnique(field, entries[k].key);
      }
    }
    FirstWinsAt(ToEntries(entries), map[], i);
  }

  // The identifiers in the list

  /** The two lists translate to each other, identifier by identifier. */
  predicate SameTexts(got: seq<Bytes>, ids: seq<JString>) {
    |got| == |ids| && forall i :: 0 <= i < |ids| ==> SameText(got[i], ids[i])
  }

  /** What every identifier has to be: free of NUL and of surrogates that stand alone. */
  predicate Storable(ids: seq<JString>) {
    forall i :: 0 <= i < |ids| ==> NUL !in ids[i] && Scalars(ids[i])
  }

  lemma {:induction false} NulIsKept(s: JString)
    requires Scalars(s)
    ensures NUL in ToUtf8(s) <==> NUL in s
  {
    StringRoundTrip(s);
    if NUL !in s {
      AsciiOfEncoded(s, NUL);
    }
    if NUL !in ToUtf8(s) {
      AsciiOfDecoded(ToUtf8(s), NUL);
    }
  }

  lemma {:induction false} SameTextsMeaning(ids: seq<JString>)
    ensures SameTexts(ToUtf8s(ids), ids) <==> forall i :: 0 <= i < |ids| ==> Scalars(ids[i])
  {
    hide Scalars, SameText, ToUtf8;
    forall i | 0 <= i < |ids|
      ensures SameText(ToUtf8(ids[i]), ids[i]) <==> Scalars(ids[i])
    {
      SameTextFrom(ids[i]);
    }
  }

  lemma {:induction false} StorableMeaning(ids: seq<JString>)
    ensures Storable(ids) <==> NulFree(ToUtf8s(ids)) && SameTexts(ToUtf8s(ids), ids)
  {
    SameTextsMeaning(ids);
    forall i | 0 <= i < |ids| && Scalars(ids[i])
      ensures NUL in ToUtf8s(ids)[i] <==> NUL in ids[i]
    {
      NulIsKept(ids[i]);
    }
  }

  /** The list of accepted identifiers, sent, stored and split, is the same list exactly when it is storable. */
  lemma {:induction false} ListArrivesSame(ids: seq<JString>)
    requires forall i :: 0 <= i < |ids| ==> ValidIdentifier(ids[i])
    ensures SameTexts(SplitCsv(Stored(ToUtf8(JJoin(ids)))), ids) <==> Storable(ids)
  {
    var got := SplitCsv(Stored(ToUtf8(JJoin(ids))));
    ListArrives(ids);
    StorableMeaning(ids);
    hide ToUtf8, Storable, NulFree, SplitCsv, Stored, ValidIdentifier;
    if SameTexts(got, ids) {
      assert got == ToUtf8s(ids);
    }
  }

  /**
   A request's identifier set, sent by the client in one metadata field among any others, reaches engine selection as
   exactly those identifiers if and only if none of them contains a NUL or a surrogate that stands alone.
   */
  lemma {:induction false} IdentifiersArrive(j: JFrame, entries: seq<JEntry>, suffix: Bytes, field: JString,
                                             ids: seq<JString>)
    requires JLists(entries, j.metadata) && JEncodeFrame(j, entries).Ok?
    requires FieldName(field) && field in j.metadata && j.metadata[field] == JJoin(ids)
    requires forall i :: 0 <= i < |ids| ==> ValidIdentifier(ids[i])
    ensures var p := Parse(JEncodeFrame(j, entries).value + suffix);
            && p.Complete? && ToUtf8(field) in p.frame.metadata
            && (SameTexts(SplitCsv(Stored(p.frame.metadata[ToUtf8(field)])), ids) <==> Storable(ids))
  {
    hide Parse, JEncodeFrame, JLists, FieldName, Stored, SplitCsv, ValidIdentifier, Storable, SameTexts, FirstWins;
    KernelParses(j, entries, suffix);
    FieldArrives(j.metadata, entries, field);
    ListArrivesSame(ids);
  }

  lemma {:induction false} OneIdentifier(s: JString, b: Bytes)
    requires s != [] && !Whitespace(s[0]) && COMMA !in s && LF !in s && CR !in s
    requires Stored(ToUtf8(s)) == b && Identifier(b)
    ensures ValidIdentifier(s) && SplitCsv(Stored(ToUtf8(JJoin([s])))) == [b]
  {
    assert s[0] in s;
    SplitJoin([b]);
  }

  /** A request accepts an identifier with a NUL inside; what arrives ends before it. */
  lemma {:induction false} NulIsCutOff()
    ensures ValidIdentifier([97, NUL, 98])
    ensures SplitCsv(Stored(ToUtf8(JJoin([[97, NUL, 98]])))) == [[97]]
  {
    var s: Bytes := [97, NUL, 98];
    FieldNameIsKept(s);
    assert Find(s, NUL, 0) == 1;
    OneIdentifier(s, [97]);
  }

  /** A request accepts two different identifiers of one unpaired surrogate; both arrive as a question mark. */
  lemma {:induction false} LoneSurrogatesCollide()
    ensures ValidIdentifier([0xD800]) && ValidIdentifier([0xD801])
    ensures SplitCsv(Stored(ToUtf8(JJoin([[0xD800]])))) == [[QUESTION]]
    ensures SplitCsv(Stored(ToUtf8(JJoin([[0xD801]])))) == [[QUESTION]]
  {
    assert ToUtf8([0xD800]) == [QUESTION] && ToUtf8([0xD801]) == [QUESTION];
    OneIdentifier([0xD800], [QUESTION]);
    OneIdentifier([0xD801], [QUESTION]);
  }

  /**
   The stages of selection that read such lists see the sets: all required capabilities, and an allowlist whose empty set
   is no constraint.
   */
  lemma {:induction false} StagesSeeTheSets(r: Request, e: Engine, capabilities: seq<Bytes>, allowed: seq<Bytes>)
    requires forall v :: v in capabilities || v in allowed ==> Identifier(v)
    requires NulFree(capabilities) && NulFree(allowed)
    requires r.requiredCapabilities == Stored(JoinCsv(capabilities))
    requires r.eligibleEngineIds == Stored(JoinCsv(allowed))
    ensures Passes(CapabilityStage, r, e) <==> forall v :: v in capabilities ==> v in e.capabilities
    ensures Passes(AllowlistStage, r, e) <==> allowed == [] || e.id in allowed
  {
    StoredListIsExact(capabilities);
    StoredListIsExact(allowed);
  }
}
