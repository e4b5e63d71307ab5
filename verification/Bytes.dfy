/** Bytes and the integer fields of the wire formats. */
module Bytes {

  type Byte = x: int | 0 <= x < 256

  const U16 := 0x1_0000
  const U32 := 0x1_0000_0000

  // ---------------------------------------------------------------- network byte order

  function PutU16(n: nat): (s: seq<Byte>)
    requires n < U16
    ensures |s| == 2
  {
    [n / 256, n % 256]
  }

  function GetU16(s: seq<Byte>): (n: nat)
    requires |s| == 2
    ensures n < U16
  {
    var hi: int, lo: int := s[0], s[1];
    256 * hi + lo
  }

  function PutU32(n: nat): (s: seq<Byte>)
    requires n < U32
    ensures |s| == 4
  {
    PutU16(n / U16) + PutU16(n % U16)
  }

  function GetU32(s: seq<Byte>): (n: nat)
    requires |s| == 4
    ensures n < U32
  {
    U16 * GetU16(s[..2]) + GetU16(s[2..])
  }

  lemma U16RoundTrip(n: nat)
    requires n < U16
    ensures GetU16(PutU16(n)) == n
  {
  }

  /** Writing a 32-bit field and reading it back. */
  lemma U32RoundTrip(n: nat)
    requires n < U32
    ensures GetU32(PutU32(n)) == n
  {
    var s := PutU32(n);
    assert s[..2] == PutU16(n / U16) && s[2..] == PutU16(n % U16);
    U16RoundTrip(n / U16);
    U16RoundTrip(n % U16);
  }

  lemma U16Inverse(s: seq<Byte>)
    requires |s| == 2
    ensures PutU16(GetU16(s)) == s
  {
  }

  /** Reading a 32-bit field and writing it back. */
  lemma U32Inverse(s: seq<Byte>)
    requires |s| == 4
    ensures PutU32(GetU32(s)) == s
  {
    var hi, lo := GetU16(s[..2]), GetU16(s[2..]);
    assert GetU32(s) / U16 == hi && GetU32(s) % U16 == lo;
    U16Inverse(s[..2]);
    U16Inverse(s[2..]);
    assert s == s[..2] + s[2..];
  }

  // ---------------------------------------------------------------- little endian words

  type Word = x: int | 0 <= x < 0x1_0000_0000

  function PutLe32(n: Word): (s: seq<Byte>)
    ensures |s| == 4
  {
    var m := n / 256;
    var k := m / 256;
    [n % 256, m % 256, k % 256, k / 256]
  }

  function GetLe32(a: Byte, b: Byte, c: Byte, d: Byte): Word {
    var w: int, x: int, y: int, z: int := a, b, c, d;
    w + 256 * x + 0x1_0000 * y + 0x100_0000 * z
  }

  lemma Le32RoundTrip(n: Word)
    ensures var s := PutLe32(n); GetLe32(s[0], s[1], s[2], s[3]) == n
  {
    var m := n / 256;
    var k := m / 256;
    assert n == 256 * m + n % 256 && m == 256 * k + m % 256 && k == 256 * (k / 256) + k % 256;
  }
}
