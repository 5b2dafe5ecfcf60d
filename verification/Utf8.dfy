/** Java strings as UTF-16 code units, and their conversion to and from UTF-8 as `getBytes` and `new String` do it. */
module Utf8 {
  import opened Basics

  type Unit = u: int | 0 <= u < 0x1_0000

  type JString = seq<Unit>

  const REPLACEMENT: Unit := 0xFFFD
  const QUESTION: Byte := 63

  predicate High(u: Unit) {
    0xD800 <= u < 0xDC00
  }

  predicate Low(u: Unit) {
    0xDC00 <= u < 0xE000
  }

  /** The string starts with a surrogate pair. */
  predicate Paired(s: JString) {
    |s| >= 2 && High(s[0]) && Low(s[1])
  }

  function CodePoint(high: Unit, low: Unit): int {
    0x1_0000 + (high - 0xD800) * 0x400 + (low - 0xDC00)
  }

  /** How many units the first character takes. */
  function Width(s: JString): (n: nat)
    requires s != []
    ensures 1 <= n <= |s|
  {
    if Paired(s) then 2 else 1
  }

  /** The bytes of the first character; an unpaired surrogate becomes a question mark. */
  function EncodeFirst(s: JString): (b: Bytes)
    requires s != []
    ensures b != []
  {
    var u := s[0];
    if Paired(s) then
      var c := CodePoint(s[0], s[1]);
      [0xF0 + c / 0x4_0000, 0x80 + c / 0x1000 % 0x40, 0x80 + c / 0x40 % 0x40, 0x80 + c % 0x40]
    else if High(u) || Low(u) then [QUESTION]
    else if u < 0x80 then [u]
    else if u < 0x800 then [0xC0 + u / 0x40, 0x80 + u % 0x40]
    else [0xE0 + u / 0x1000, 0x80 + u / 0x40 % 0x40, 0x80 + u % 0x40]
  }

  function ToUtf8(s: JString): Bytes {
    if s == [] then [] else EncodeFirst(s) + ToUtf8(s[Width(s)..])
  }

  /** No surrogate stands alone. */
  predicate Scalars(s: JString) {
    s != [] ==> (Paired(s) || (!High(s[0]) && !Low(s[0]))) && Scalars(s[Width(s)..])
  }

  predicate Continuation(b: Bytes, i: nat) {
    i < |b| && 0x80 <= b[i] < 0xC0
  }

  function Two(b: Bytes): int
    requires |b| >= 2
  {
    (b[0] as int - 0xC0) * 0x40 + (b[1] as int - 0x80)
  }

  function Three(b: Bytes): int
    requires |b| >= 3
  {
    (b[0] as int - 0xE0) * 0x1000 + (b[1] as int - 0x80) * 0x40 + (b[2] as int - 0x80)
  }

  function Four(b: Bytes): int
    requires |b| >= 4
  {
    (b[0] as int - 0xF0) * 0x4_0000 + (b[1] as int - 0x80) * 0x1000 + (b[2] as int - 0x80) * 0x40 + (b[3] as int - 0x80)
  }

  /** How many bytes the first character takes; 0 when the text does not start with a well-formed one. */
  function Length(b: Bytes): (n: nat)
    requires b != []
    ensures n <= |b|
  {
    if b[0] < 0x80 then 1
    else if 0xC2 <= b[0] < 0xE0 && Continuation(b, 1) then 2
    else if 0xE0 <= b[0] < 0xF0 && Continuation(b, 1) && Continuation(b, 2) && Three(b) >= 0x800
            && !(0xD800 <= Three(b) < 0xE000) then 3
    else if 0xF0 <= b[0] < 0xF5 && Continuation(b, 1) && Continuation(b, 2) && Continuation(b, 3)
            && 0x1_0000 <= Four(b) < 0x11_0000 then 4
    else 0
  }

  function DecodeFirst(b: Bytes): (s: JString)
    requires b != []
    ensures s != []
  {
    match Length(b)
    case 0 => [REPLACEMENT]
    case 1 => [b[0]]
    case 2 => [Two(b)]
    case 3 => [Three(b)]
    case _ => [0xD800 + (Four(b) - 0x1_0000) / 0x400, 0xDC00 + (Four(b) - 0x1_0000) % 0x400]
  }

  /** How far decoding advances: past one character, or past one byte that is replaced. */
  function Advance(b: Bytes): (n: nat)
    requires b != []
    ensures 1 <= n <= |b|
  {
    if Length(b) == 0 then 1 else Length(b)
  }

  function FromUtf8(b: Bytes): JString {
    if b == [] then [] else DecodeFirst(b) + FromUtf8(b[Advance(b)..])
  }

  /** Well-formed UTF-8. */
  predicate Valid(b: Bytes) {
    b != [] ==> Length(b) != 0 && Valid(b[Advance(b)..])
  }

  // Decoding undoes encoding

  lemma {:induction false} FirstRoundTrip(s: JString, rest: Bytes)
    requires s != [] && (Paired(s) || (!High(s[0]) && !Low(s[0])))
    ensures var b := EncodeFirst(s) + rest; Length(b) == |EncodeFirst(s)| && DecodeFirst(b) == s[..Width(s)]
  {
    var e := EncodeFirst(s);
    var b := e + rest;
    if Paired(s) {
      var c := CodePoint(s[0], s[1]);
      assert b[0] == e[0] && b[1] == e[1] && b[2] == e[2] && b[3] == e[3];
      PairBytes(c);
      assert Four(b) == c;
    } else if s[0] < 0x800 {
      assert s[0] >= 0x80 ==> b[0] == e[0] && b[1] == e[1];
    } else {
      assert b[0] == e[0] && b[1] == e[1] && b[2] == e[2];
      TripleBytes(s[0]);
      assert Three(b) == s[0];
    }
  }

  lemma {:induction false} TripleBytes(u: Unit)
    ensures u == u / 0x1000 * 0x1000 + u / 0x40 % 0x40 * 0x40 + u % 0x40
  {
  }

  lemma {:induction false} PairBytes(c: int)
    requires 0x1_0000 <= c < 0x11_0000
    ensures c == c / 0x4_0000 * 0x4_0000 + c / 0x1000 % 0x40 * 0x1000 + c / 0x40 % 0x40 * 0x40 + c % 0x40
    ensures c / 0x4_0000 < 5
  {
  }

  lemma {:induction false} DecodeStep(e: Bytes, t: Bytes)
    requires e + t != [] && Advance(e + t) == |e|
    ensures FromUtf8(e + t) == DecodeFirst(e + t) + FromUtf8(t)
  {
    assert (e + t)[|e|..] == t;
  }

  lemma {:induction false} EncodeStep(s: JString, t: JString)
    requires s + t != [] && Width(s + t) == |s|
    ensures ToUtf8(s + t) == EncodeFirst(s + t) + ToUtf8(t)
  {
    assert (s + t)[|s|..] == t;
  }

  lemma {:induction false} DecodeEncoded(s: JString, rest: Bytes)
    requires Scalars(s)
    ensures FromUtf8(ToUtf8(s) + rest) == s + FromUtf8(rest)
    decreases |s|
  {
    if s == [] {
      assert [] + rest == rest && [] + FromUtf8(rest) == FromUtf8(rest);
    } else {
      var n, e, tail := Width(s), EncodeFirst(s), ToUtf8(s[Width(s)..]);
      FirstRoundTrip(s, tail + rest);
      DecodeEncoded(s[n..], rest);
      hide EncodeFirst, DecodeFirst, Length, Width, FromUtf8;
      assert ToUtf8(s) == e + tail;
      hide ToUtf8;
      DecodeStep(e, tail + rest);
      Associative(e, tail, rest);
      Associative(s[..n], s[n..], FromUtf8(rest));
      assert s[..n] + s[n..] == s;
    }
  }

  /** A Java string survives the trip through UTF-8 exactly when no surrogate in it stands alone. */
  lemma {:induction false} StringRoundTrip(s: JString)
    ensures FromUtf8(ToUtf8(s)) == s <==> Scalars(s)
  {
    if Scalars(s) {
      DecodeEncoded(s, []);
      assert ToUtf8(s) + [] == ToUtf8(s) && s + FromUtf8([]) == s;
    } else {
      DecodedIsScalar(ToUtf8(s));
    }
  }

  lemma {:induction false} DecodedIsScalar(b: Bytes)
    ensures Scalars(FromUtf8(b))
    decreases |b|
  {
    if b != [] {
      DecodedIsScalar(b[Advance(b)..]);
      var s, rest := DecodeFirst(b), FromUtf8(b[Advance(b)..]);
      assert |s| == 2 ==> (s + rest)[0] == s[0] && (s + rest)[1] == s[1];
      assert (s + rest)[|s|..] == rest;
      assert Width(s + rest) == |s|;
    }
  }

  // Encoding undoes decoding

  /** A well-formed first character is encoded back to its own bytes. */
  lemma {:induction false} EncodeDecodedFirst(b: Bytes, s: JString)
    requires b != [] && Length(b) != 0
    ensures EncodeFirst(DecodeFirst(b) + s) == b[..Length(b)]
    ensures Width(DecodeFirst(b) + s) == |DecodeFirst(b)|
  {
    var d := DecodeFirst(b) + s;
    assert d[0] == DecodeFirst(b)[0];
    match Length(b)
    case 4 =>
      assert d[1] == DecodeFirst(b)[1];
      EncodeFour(b, d);
    case 3 =>
      var x, y, z := b[0] as int - 0xE0, b[1] as int - 0x80, b[2] as int - 0x80;
      assert d[0] / 0x40 == x * 0x40 + y;
    case _ =>
  }

  lemma {:induction false} EncodeFour(b: Bytes, d: JString)
    requires b != [] && Length(b) == 4
    requires |d| >= 2
    requires d[0] == 0xD800 + (Four(b) - 0x1_0000) / 0x400 && d[1] == 0xDC00 + (Four(b) - 0x1_0000) % 0x400
    ensures Paired(d) && EncodeFirst(d) == b[..4]
  {
    assert CodePoint(d[0], d[1]) == Four(b);
    FourDigits(b[0] as int - 0xF0, b[1] as int - 0x80, b[2] as int - 0x80, b[3] as int - 0x80);
    hide Four;
  }

  lemma {:induction false} FourDigits(a: int, b: int, c: int, d: int)
    requires 0 <= a && 0 <= b < 0x40 && 0 <= c < 0x40 && 0 <= d < 0x40
    ensures var v := a * 0x4_0000 + b * 0x1000 + c * 0x40 + d;
            v / 0x4_0000 == a && v / 0x1000 % 0x40 == b && v / 0x40 % 0x40 == c && v % 0x40 == d
  {
    var v := a * 0x4_0000 + b * 0x1000 + c * 0x40 + d;
    assert v / 0x40 == a * 0x1000 + b * 0x40 + c;
    assert v / 0x1000 == a * 0x40 + b;
  }

  /** Unfolding of decoding at a well-formed first character. */
  lemma {:induction false} ValidStep(b: Bytes)
    requires b != [] && Valid(b)
    ensures Length(b) > 0 && Valid(b[Length(b)..])
    ensures FromUtf8(b) == DecodeFirst(b) + FromUtf8(b[Length(b)..])
  {
    hide DecodeFirst;
  }

  lemma {:induction false} EncodeDecoded(b: Bytes)
    requires Valid(b)
    ensures ToUtf8(FromUtf8(b)) == b
    decreases |b|
  {
    if b != [] {
      ValidStep(b);
      hide EncodeFirst, DecodeFirst, Length, Width, ToUtf8, Valid, Advance, FromUtf8;
      var n, d, rest := Length(b), DecodeFirst(b), FromUtf8(b[Length(b)..]);
      EncodeDecodedFirst(b, rest);
      EncodeDecoded(b[n..]);
      EncodeStep(d, rest);
      assert b[..n] + b[n..] == b;
    } else {
      assert FromUtf8([]) == [];
    }
  }

  lemma {:induction false} EncodedIsValid(s: JString)
    ensures Valid(ToUtf8(s))
    decreases |s|
  {
    if s != [] {
      var e, tail := EncodeFirst(s), ToUtf8(s[Width(s)..]);
      EncodedIsValid(s[Width(s)..]);
      if Paired(s) || (!High(s[0]) && !Low(s[0])) {
        FirstRoundTrip(s, tail);
      }
      hide DecodeFirst;
      assert Advance(e + tail) == |e|;
      assert (e + tail)[|e|..] == tail;
    }
  }

  /** Bytes survive the trip through a Java string exactly when they are well-formed UTF-8. */
  lemma {:induction false} BytesRoundTrip(b: Bytes)
    ensures ToUtf8(FromUtf8(b)) == b <==> Valid(b)
  {
    if Valid(b) {
      EncodeDecoded(b);
    } else {
      EncodedIsValid(FromUtf8(b));
    }
  }

  // Both conversions respect ASCII boundaries

  lemma {:induction false} LengthAtBoundary(a: Bytes, x: Byte, c: Bytes)
    requires a != [] && x < 0x80
    ensures Length(a + [x] + c) == Length(a) && DecodeFirst(a + [x] + c) == DecodeFirst(a)
  {
    var t := a + [x] + c;
    assert forall i :: 0 <= i < |a| ==> t[i] == a[i];
    assert t[|a|] == x;
  }

  lemma {:induction false} DecodeBoundary(a: Bytes, x: Byte, c: Bytes)
    requires x < 0x80
    ensures FromUtf8(a + [x] + c) == FromUtf8(a) + [x] + FromUtf8(c)
    decreases |a|
  {
    var t := a + [x] + c;
    if a == [] {
      assert t == [x] + c && t[1..] == c;
      assert FromUtf8(t) == [x] + FromUtf8(c);
      assert FromUtf8(a) + [x] == [x];
    } else {
      LengthAtBoundary(a, x, c);
      var n := Advance(a);
      assert Advance(t) == n;
      hide DecodeFirst, Length, Advance;
      assert t[n..] == a[n..] + [x] + c;
      DecodeBoundary(a[n..], x, c);
      assert FromUtf8(t) == DecodeFirst(a) + FromUtf8(t[n..]);
      hide FromUtf8;
      assert DecodeFirst(a) + (FromUtf8(a[n..]) + [x] + FromUtf8(c)) == DecodeFirst(a) + FromUtf8(a[n..]) + [x] + FromUtf8(c);
    }
  }

  lemma {:induction false} WidthAtBoundary(a: JString, x: Unit, c: JString)
    requires a != [] && x < 0x80
    ensures Width(a + [x] + c) == Width(a) && EncodeFirst(a + [x] + c) == EncodeFirst(a)
  {
    var t := a + [x] + c;
    assert forall i :: 0 <= i < |a| ==> t[i] == a[i];
    assert t[|a|] == x;
  }

  lemma {:induction false} EncodeBoundary(a: JString, x: Unit, c: JString)
    requires x < 0x80
    ensures ToUtf8(a + [x] + c) == ToUtf8(a) + [x] + ToUtf8(c)
    decreases |a|
  {
    var t := a + [x] + c;
    if a == [] {
      assert t == [x] + c && t[1..] == c;
      assert ToUtf8(t) == [x] + ToUtf8(c);
      assert ToUtf8(a) + [x] == [x];
    } else {
      WidthAtBoundary(a, x, c);
      var n := Width(a);
      assert t[n..] == a[n..] + [x] + c;
      EncodeBoundary(a[n..], x, c);
      hide EncodeFirst, Width;
      assert ToUtf8(t) == EncodeFirst(a) + (ToUtf8(a[n..]) + [x] + ToUtf8(c));
    }
  }

  /** Conversion invents no ASCII character, except the question mark for an unpaired surrogate. */
  lemma {:induction false} AsciiOfDecoded(b: Bytes, x: Unit)
    requires x < 0x80 && x !in b
    ensures x !in FromUtf8(b)
    decreases |b|
  {
    if b != [] {
      AsciiOfDecoded(b[Advance(b)..], x);
      assert x !in DecodeFirst(b);
    }
  }

  lemma {:induction false} AsciiOfEncoded(s: JString, x: Byte)
    requires x < 0x80 && x != QUESTION && x !in s
    ensures x !in ToUtf8(s)
    decreases |s|
  {
    if s != [] {
      AsciiOfEncoded(s[Width(s)..], x);
      assert x !in EncodeFirst(s);
    }
  }

  lemma {:induction false} LoneSurrogateShows(s: JString)
    requires !Scalars(s)
    ensures QUESTION in ToUtf8(s)
    decreases |s|
  {
    if Paired(s) || (!High(s[0]) && !Low(s[0])) {
      LoneSurrogateShows(s[Width(s)..]);
    }
  }
}
