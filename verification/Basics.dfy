/** Vocabulary shared by every other module: optional values, bytes, and the text literals of the program. */
module Basics {

  datatype Option<+T> = None | Some(value: T)

  datatype Result<+T, +E> = Ok(value: T) | Err(error: E)

  type Byte = b: int | 0 <= b < 256

  /** A C++ `std::string` or `std::vector<std::uint8_t>`. */
  type Bytes = seq<Byte>

  const LF: Byte := 10
  const CR: Byte := 13
  const EQUALS: Byte := 61
  const COMMA: Byte := 44
  const NUL: Byte := 0

  /** The bytes of a literal of the program; every literal here is ASCII, and any other character becomes '?'. */
  function Ascii(s: string): Bytes {
    seq(|s|, i requires 0 <= i < |s| => if s[i] as int < 128 then s[i] as int else 63)
  }

  /** `find` from a position on: the index of the first such element, or the length of the text. */
  function Find<T(==)>(text: seq<T>, b: T, pos: nat): (end: nat)
    requires pos <= |text|
    ensures pos <= end <= |text|
    ensures end < |text| ==> text[end] == b
    ensures b !in text[pos..end]
    decreases |text| - pos
  {
    if pos == |text| || text[pos] == b then pos
    else
      var end := Find(text, b, pos + 1);
      assert text[pos..end] == [text[pos]] + text[pos + 1..end];
      end
  }

  lemma {:induction false} FindSkips<T>(text: seq<T>, b: T, pos: nat, field: seq<T>, rest: seq<T>)
    requires pos <= |text| && text[pos..] == field + rest
    requires b !in field
    requires rest == [] || rest[0] == b
    ensures Find(text, b, pos) == pos + |field|
    decreases |field|
  {
    if field != [] {
      assert text[pos] == text[pos..][0] == field[0];
      assert text[pos + 1..] == text[pos..][1..] == field[1..] + rest;
      FindSkips(text, b, pos + 1, field[1..], rest);
    } else if rest != [] {
      assert text[pos] == text[pos..][0];
    }
  }

  /** Searching from a position on is searching what is behind it. */
  lemma {:induction false} FindShift<T>(text: seq<T>, b: T, pos: nat)
    requires pos <= |text|
    ensures Find(text[pos..], b, 0) == Find(text, b, pos) - pos
  {
    var end := Find(text, b, pos);
    var rest := text[pos..];
    assert rest[0..] == text[pos..end] + text[end..];
    FindSkips(rest, b, 0, text[pos..end], text[end..]);
  }

  lemma {:induction false} Associative<T>(a: seq<T>, b: seq<T>, c: seq<T>)
    ensures a + b + c == a + (b + c)
  {
  }

  /** Where a line ends that is followed by its separator. */
  lemma {:induction false} FindEnd<T>(text: seq<T>, b: T, pos: nat, line: seq<T>, rest: seq<T>)
    requires b !in line
    requires pos <= |text| && text[pos..] == line + [b] + rest
    ensures var end := pos + |line|;
            end < |text| && Find(text, b, pos) == end && text[pos..end] == line && text[end + 1..] == rest
  {
    Associative(line, [b], rest);
    FindSkips(text, b, pos, line, [b] + rest);
    SliceOfSlice(text, pos, line, [b], rest);
  }

  lemma {:induction false} SliceOfSlice<T>(text: seq<T>, pos: nat, a: seq<T>, b: seq<T>, c: seq<T>)
    requires pos <= |text| && text[pos..] == a + b + c
    ensures pos + |a| + |b| <= |text|
    ensures text[pos..pos + |a|] == a && text[pos + |a| + |b|..] == c
  {
    assert text[pos..pos + |a|] == text[pos..][..|a|];
    assert text[pos + |a| + |b|..] == text[pos..][|a| + |b|..];
  }
}
