/** Byte strings and the 32-bit little-endian lengths of the wire formats. */
module Bytes {

  type byte = x: int | 0 <= x < 256

  const TwoTo32 := 0x1_0000_0000

  /** binary.LittleEndian of uint32(n), writeUInt32LE: the low 32 bits. */
  function LE32(n: nat): (s: seq<byte>)
    ensures |s| == 4
  {
    var a := n / 256;
    var b := a / 256;
    var c := b / 256;
    [n % 256, a % 256, b % 256, c % 256]
  }

  function FromDigits(a: int, b: int, c: int, d: int): int {
    a + b * 0x100 + c * 0x1_0000 + d * 0x100_0000
  }

  /** readUInt32LE / binary.LittleEndian.Uint32 at offset `at`. */
  function ReadLE32(s: seq<byte>, at: nat): (n: nat)
    requires at + 4 <= |s|
    ensures n < TwoTo32
  {
    FromDigits(s[at], s[at + 1], s[at + 2], s[at + 3])
  }

  /** Addition of two uint32 values. */
  function AddUint32(a: nat, b: nat): nat
    requires a < TwoTo32 && b < TwoTo32
  {
    if a + b < TwoTo32 then a + b else a + b - TwoTo32
  }

  lemma DigitsOf(n: nat)
    ensures var d := LE32(n); FromDigits(d[0], d[1], d[2], d[3]) == n % TwoTo32
  {
    var a := n / 256;
    var b := a / 256;
    var c := b / 256;
    var e := c / 256;
    assert n == 256 * a + n % 256 && a == 256 * b + a % 256 && b == 256 * c + b % 256 && c == 256 * e + c % 256;
    var low := FromDigits(n % 256, a % 256, b % 256, c % 256);
    assert n == TwoTo32 * e + low && 0 <= low < TwoTo32;
    Remainder(n, e, low);
  }

  lemma Remainder(n: nat, e: nat, low: nat)
    requires n == TwoTo32 * e + low && low < TwoTo32
    ensures n % TwoTo32 == low
  {
  }

  lemma ReadWrite(n: nat, before: seq<byte>, after: seq<byte>)
    ensures ReadLE32(before + LE32(n) + after, |before|) == n % TwoTo32
  {
    var s := before + LE32(n) + after;
    DigitsOf(n);
    assert s[|before|] == LE32(n)[0] && s[|before| + 1] == LE32(n)[1];
    assert s[|before| + 2] == LE32(n)[2] && s[|before| + 3] == LE32(n)[3];
  }

  /** Four bytes are the encoding of the number they spell. */
  lemma ReadBack(s: seq<byte>, at: nat)
    requires at + 4 <= |s|
    ensures LE32(ReadLE32(s, at)) == s[at..at + 4]
  {
    var a: int, b: int, c: int, d: int := s[at], s[at + 1], s[at + 2], s[at + 3];
    var n := FromDigits(a, b, c, d);
    assert n / 256 == b + c * 0x100 + d * 0x1_0000 && n % 256 == a;
    assert n / 256 / 256 == c + d * 0x100 && n / 256 % 256 == b;
  }

  /** Buffer.slice: both ends are clamped to the buffer. */
  function Slice(s: seq<byte>, lo: nat, hi: nat): seq<byte> {
    var h := if hi < |s| then hi else |s|;
    if lo <= h then s[lo..h] else []
  }

  function Concat(parts: seq<seq<byte>>): seq<byte> {
    if parts == [] then [] else parts[0] + Concat(parts[1..])
  }

  /** Two ways of splitting the same bytes: the left part of one is inside the left part of the other. */
  lemma SplitInside(a: seq<byte>, b: seq<byte>, x: seq<byte>, y: seq<byte>)
    requires a + b == x + y && |a| <= |x|
    ensures a == x[..|a|] && b == x[|a|..] + y
  {
    assert (a + b)[..|a|] == a && (x + y)[..|a|] == x[..|a|];
    assert (a + b)[|a|..] == b && (x + y)[|a|..] == x[|a|..] + y;
  }

  lemma ReadPrefix(s: seq<byte>, t: seq<byte>)
    requires 4 <= |s| && s <= t
    ensures ReadLE32(s, 0) == ReadLE32(t, 0)
  {
    assert s[0] == t[0] && s[1] == t[1] && s[2] == t[2] && s[3] == t[3];
  }
}
