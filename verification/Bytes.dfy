/** Bytes and the fixed-width little-endian integers stored in scripts and streams. */
module Bytes {

  type Byte = b: int | 0 <= b < 0x100

  predicate IsInt8(v: int) { -0x80 <= v < 0x80 }

  predicate IsInt32(v: int) { -0x8000_0000 <= v < 0x8000_0000 }

  /** Reinterpretation of a byte as a signed 8-bit value. */
  function Signed8(b: Byte): (v: int)
    ensures IsInt8(v)
  {
    if b < 0x80 then b else b - 0x100
  }

  /** The byte that a conversion to an unsigned 8-bit value keeps. */
  function Low8(v: int): Byte { v % 0x100 }

  /** Four little-endian bytes of the 32-bit pattern of v. */
  function LE32(v: int): (s: seq<Byte>)
    ensures |s| == 4
  {
    [v % 0x100, v / 0x100 % 0x100, v / 0x100 / 0x100 % 0x100, v / 0x100 / 0x100 / 0x100 % 0x100]
  }

  function U32(s: seq<Byte>): (v: int)
    requires |s| == 4
    ensures 0 <= v < 0x1_0000_0000
  {
    s[0] as int + 0x100 * (s[1] as int) + 0x1_0000 * (s[2] as int) + 0x100_0000 * (s[3] as int)
  }

  function U16(s: seq<Byte>): (v: int)
    requires |s| == 2
    ensures 0 <= v < 0x1_0000
  {
    s[0] as int + 0x100 * (s[1] as int)
  }

  /** Reinterpretation of four bytes as a signed 32-bit value. */
  function Signed32(s: seq<Byte>): (v: int)
    requires |s| == 4
    ensures IsInt32(v)
  {
    var u := U32(s);
    if u < 0x8000_0000 then u else u - 0x1_0000_0000
  }

  lemma Signed32OfLE32(v: int)
    requires IsInt32(v)
    ensures Signed32(LE32(v)) == v
  {
    var a := v / 0x100;
    var b := a / 0x100;
    var c := b / 0x100;
    assert v == 0x100 * a + v % 0x100;
    assert a == 0x100 * b + a % 0x100;
    assert b == 0x100 * c + b % 0x100;
    assert -0x80 <= c < 0x80;
    assert c % 0x100 == if c < 0 then c + 0x100 else c;
  }

  /** Keeping only the low byte of a 32-bit offset is exact when the offset fits in a signed byte. */
  lemma Signed8OfLE32(v: int)
    requires IsInt8(v)
    ensures Signed8(LE32(v)[0]) == v
  {}

  lemma Signed8OfLow8(v: int)
    requires IsInt8(v)
    ensures Signed8(Low8(v)) == v
  {}

  lemma LE32OfSigned32(s: seq<Byte>)
    requires |s| == 4
    ensures LE32(Signed32(s)) == s
  {
    var a := s[1] as int + 0x100 * (s[2] as int) + 0x1_0000 * (s[3] as int - if s[3] < 0x80 then 0 else 0x100);
    var b := s[2] as int + 0x100 * (s[3] as int - if s[3] < 0x80 then 0 else 0x100);
    var c := s[3] as int - if s[3] < 0x80 then 0 else 0x100;
    var v := Signed32(s);
    assert v == 0x100 * a + s[0] as int;
    assert v / 0x100 == a && v % 0x100 == s[0];
    assert a / 0x100 == b && a % 0x100 == s[1];
    assert b / 0x100 == c && b % 0x100 == s[2];
    assert c % 0x100 == s[3];
  }
}
