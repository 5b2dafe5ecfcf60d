/** Big-endian integers: the shift expressions of the source against one positional definition. */
module BigEndian {
  import opened Basics

  function Pow256(n: nat): (p: nat)
    ensures p > 0
  {
    if n == 0 then 1 else 256 * Pow256(n - 1)
  }

  /** The `width` low bytes of `v`, most significant first. */
  function Be(v: nat, width: nat): (s: Bytes)
    ensures |s| == width
  {
    if width == 0 then [] else Be(v / 256, width - 1) + [v % 256]
  }

  function FromBe(s: Bytes): nat {
    if s == [] then 0 else FromBe(s[..|s| - 1]) * 256 + s[|s| - 1]
  }

  lemma {:induction false} FromBeBound(s: Bytes)
    ensures FromBe(s) < Pow256(|s|)
  {
    if s != [] {
      FromBeBound(s[..|s| - 1]);
    }
  }

  /** Decoding undoes encoding for every value that fits the width, and encoding undoes decoding for every text. */
  lemma {:induction false} DecodeEncode(v: nat, width: nat)
    requires v < Pow256(width)
    ensures FromBe(Be(v, width)) == v
  {
    if width > 0 {
      DecodeEncode(v / 256, width - 1);
      var s := Be(v, width);
      assert s[..|s| - 1] == Be(v / 256, width - 1);
    }
  }

  lemma {:induction false} EncodeDecode(s: Bytes)
    ensures Be(FromBe(s), |s|) == s
  {
    if s != [] {
      var init := s[..|s| - 1];
      EncodeDecode(init);
      assert FromBe(s) / 256 == FromBe(init) && FromBe(s) % 256 == s[|s| - 1];
      assert s == init + [s[|s| - 1]];
    }
  }

  function GetU16(p: Bytes): nat
    requires |p| == 2
  {
    p[0] as int * 0x100 + p[1] as int
  }

  function GetU32(p: Bytes): nat
    requires |p| == 4
  {
    p[0] as int * 0x100_0000 + p[1] as int * 0x1_0000 + p[2] as int * 0x100 + p[3] as int
  }

  lemma {:induction false} GetU16IsBigEndian(p: Bytes)
    requires |p| == 2
    ensures GetU16(p) == FromBe(p)
  {
    assert FromBe(p[..1]) == FromBe(p[..1][..0]) * 256 + p[0];
  }

  lemma {:induction false} GetU32IsBigEndian(p: Bytes)
    requires |p| == 4
    ensures GetU32(p) == FromBe(p)
  {
    var a, b, c := p[..1], p[..2], p[..3];
    assert a[..0] == [] && b[..1] == a && c[..2] == b && p[..3] == c;
    assert FromBe(a) == p[0];
    assert FromBe(b) == FromBe(a) * 256 + p[1];
    assert FromBe(c) == FromBe(b) * 256 + p[2];
  }

  /** The accumulating loop of the 64-bit getter. */
  method GetU64(p: Bytes) returns (value: nat)
    requires |p| == 8
    ensures value == FromBe(p)
  {
    value := 0;
    for i := 0 to 8
      invariant value == FromBe(p[..i])
    {
      assert p[..i + 1][..i] == p[..i];
      value := value * 256 + p[i];
    }
    assert p[..8] == p;
  }

  method PutU16(p: array<Byte>, at: nat, value: nat)
    requires at + 2 <= p.Length
    modifies p
    ensures p[..] == old(p[..at]) + Be(value, 2) + old(p[at + 2..])
  {
    p[at] := value / 0x100 % 0x100;
    p[at + 1] := value % 0x100;
    assert Be(value, 2) == Be(value / 256, 1) + [value % 256];
    assert Be(value / 256, 1) == [value / 256 % 256];
  }

  method PutU32(p: array<Byte>, at: nat, value: nat)
    requires at + 4 <= p.Length
    modifies p
    ensures p[..] == old(p[..at]) + Be(value, 4) + old(p[at + 4..])
  {
    p[at] := value / 0x100_0000 % 0x100;
    p[at + 1] := value / 0x1_0000 % 0x100;
    p[at + 2] := value / 0x100 % 0x100;
    p[at + 3] := value % 0x100;
    BeOfFour(value);
  }

  lemma {:induction false} BeOfFour(v: nat)
    ensures Be(v, 4) == [v / 0x100_0000 % 0x100, v / 0x1_0000 % 0x100, v / 0x100 % 0x100, v % 0x100]
  {
    assert Be(v, 4) == Be(v / 256, 3) + [v % 256];
    assert Be(v / 256, 3) == Be(v / 256 / 256, 2) + [v / 256 % 256];
    assert Be(v / 256 / 256, 2) == Be(v / 256 / 256 / 256, 1) + [v / 256 / 256 % 256];
    assert Be(v / 256 / 256 / 256, 1) == [v / 256 / 256 / 256 % 256];
    assert v / 256 / 256 == v / 0x1_0000 && v / 256 / 256 / 256 == v / 0x100_0000;
  }

  /** The 64-bit setter runs from the last byte to the first. */
  method PutU64(p: array<Byte>, at: nat, value: nat)
    requires at + 8 <= p.Length
    modifies p
    ensures p[..] == old(p[..at]) + Be(value, 8) + old(p[at + 8..])
  {
    var rest := value;
    ghost var was := p[..];
    var i := 8;
    while i > 0
      invariant 0 <= i <= 8
      invariant p[..at + i] == was[..at + i] && p[at + 8..] == was[at + 8..]
      invariant Be(rest, i) + p[at + i..at + 8] == Be(value, 8)
    {
      i := i - 1;
      ghost var tail := p[at + i + 1..at + 8];
      p[at + i] := rest % 256;
      assert p[at + i..at + 8] == [rest % 256] + tail;
      assert Be(rest, i + 1) + tail == Be(rest / 256, i) + ([rest % 256] + tail);
      rest := rest / 256;
    }
    assert p[..] == p[..at] + p[at..at + 8] + p[at + 8..];
  }
}
