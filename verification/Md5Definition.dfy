/** The one-shot definition of the MD5 message digest, sections 3.1 to 3.4 of RFC 1321. */
module Md5Definition {
  import opened Sequences

  const TWO_32: nat := 0x1_0000_0000

  datatype Regs = Regs(a: bv32, b: bv32, c: bv32, d: bv32)

  function F(x: bv32, y: bv32, z: bv32): bv32 { (x & y) | (!x & z) }
  function G(x: bv32, y: bv32, z: bv32): bv32 { (x & z) | (y & !z) }
  function H(x: bv32, y: bv32, z: bv32): bv32 { x ^ y ^ z }
  function I(x: bv32, y: bv32, z: bv32): bv32 { y ^ (x | !z) }

  function Mix(i: nat, x: bv32, y: bv32, z: bv32): bv32 {
    if i < 16 then F(x, y, z) else if i < 32 then G(x, y, z) else if i < 48 then H(x, y, z) else I(x, y, z)
  }

  function Rotl(x: bv32, n: nat): bv32
    requires n <= 32
  {
    (x << n) | (x >> 32 - n)
  }

  // The word of the block that step i uses.
  function Word(i: nat): (k: nat)
    ensures k < 16
  {
    (if i < 16 then i else if i < 32 then 5 * i + 1 else if i < 48 then 3 * i + 5 else 7 * i) % 16
  }

  // How far step i rotates.
  function Shift(i: nat): (s: nat)
    ensures s <= 32
  {
    if i < 16 then match i % 4 case 0 => 7 case 1 => 12 case 2 => 17 case _ => 22
    else if i < 32 then match i % 4 case 0 => 5 case 1 => 9 case 2 => 14 case _ => 20
    else if i < 48 then match i % 4 case 0 => 4 case 1 => 11 case 2 => 16 case _ => 23
    else match i % 4 case 0 => 6 case 1 => 10 case 2 => 15 case _ => 21
  }

  // The integer part of 4294967296 times abs(sin(i + 1)).
  function T(i: nat): bv32 {
    if i < 16 then match i
    case 0 => 0xd76aa478 case 1 => 0xe8c7b756 case 2 => 0x242070db case 3 => 0xc1bdceee
    case 4 => 0xf57c0faf case 5 => 0x4787c62a case 6 => 0xa8304613 case 7 => 0xfd469501
    case 8 => 0x698098d8 case 9 => 0x8b44f7af case 10 => 0xffff5bb1 case 11 => 0x895cd7be
    case 12 => 0x6b901122 case 13 => 0xfd987193 case 14 => 0xa679438e case _ => 0x49b40821
    else if i < 32 then match i
    case 16 => 0xf61e2562 case 17 => 0xc040b340 case 18 => 0x265e5a51 case 19 => 0xe9b6c7aa
    case 20 => 0xd62f105d case 21 => 0x02441453 case 22 => 0xd8a1e681 case 23 => 0xe7d3fbc8
    case 24 => 0x21e1cde6 case 25 => 0xc33707d6 case 26 => 0xf4d50d87 case 27 => 0x455a14ed
    case 28 => 0xa9e3e905 case 29 => 0xfcefa3f8 case 30 => 0x676f02d9 case _ => 0x8d2a4c8a
    else if i < 48 then match i
    case 32 => 0xfffa3942 case 33 => 0x8771f681 case 34 => 0x6d9d6122 case 35 => 0xfde5380c
    case 36 => 0xa4beea44 case 37 => 0x4bdecfa9 case 38 => 0xf6bb4b60 case 39 => 0xbebfbc70
    case 40 => 0x289b7ec6 case 41 => 0xeaa127fa case 42 => 0xd4ef3085 case 43 => 0x04881d05
    case 44 => 0xd9d4d039 case 45 => 0xe6db99e5 case 46 => 0x1fa27cf8 case _ => 0xc4ac5665
    else match i
    case 48 => 0xf4292244 case 49 => 0x432aff97 case 50 => 0xab9423a7 case 51 => 0xfc93a039
    case 52 => 0x655b59c3 case 53 => 0x8f0ccc92 case 54 => 0xffeff47d case 55 => 0x85845dd1
    case 56 => 0x6fa87e4f case 57 => 0xfe2ce6e0 case 58 => 0xa3014314 case 59 => 0x4e0811a1
    case 60 => 0xf7537e82 case 61 => 0xbd3af235 case 62 => 0x2ad7d2bb case _ => 0xeb86d391
  }

  // What one step puts in the place of a.
  function Operation(a: bv32, b: bv32, mixed: bv32, word: bv32, s: nat, t: bv32): bv32
    requires s <= 32
  {
    Rotl(a + mixed + word + t, s) + b
  }

  function Step(i: nat, r: Regs, x: seq<bv32>): Regs
    requires |x| == 16
  {
    Regs(r.d, Operation(r.a, r.b, Mix(i, r.b, r.c, r.d), x[Word(i)], Shift(i), T(i)), r.b, r.c)
  }

  /** Steps `from` up to but not including `to`. */
  function Steps(r: Regs, x: seq<bv32>, from: nat, to: nat): Regs
    requires |x| == 16 && from <= to
  {
    if from == to then r else Step(to - 1, Steps(r, x, from, to - 1), x)
  }

  // A word from four bytes, low-order byte first.
  function WordOf(m: seq<byte>): bv32
    requires |m| == 4
  {
    (m[0] as bv32) + (m[1] as bv32 << 8) + (m[2] as bv32 << 16) + (m[3] as bv32 << 24)
  }

  function Words(block: seq<byte>): (x: seq<bv32>)
    requires |block| == 64
    ensures |x| == 16
  {
    seq(16, k requires 0 <= k < 16 => WordOf(block[4 * k..4 * k + 4]))
  }

  function Plus(x: bv32, y: bv32): bv32 { x + y }

  function Compress(r: Regs, block: seq<byte>): Regs
    requires |block| == 64
  {
    var s := Steps(r, Words(block), 0, 64);
    Regs(Plus(r.a, s.a), Plus(r.b, s.b), Plus(r.c, s.c), Plus(r.d, s.d))
  }

  function Fold(m: seq<byte>): Regs
    requires |m| % 64 == 0
  {
    if m == [] then Regs(0x67452301, 0xefcdab89, 0x98badcfe, 0x10325476)
    else Compress(Fold(m[..|m| - 64]), m[|m| - 64..])
  }

  function Byte(w: bv32, i: nat): byte
    requires i < 4
  {
    ((w >> 8 * i) & 0xff) as byte
  }

  // The bytes of a word, low-order byte first.
  function Bytes(w: bv32): (m: seq<byte>)
    ensures |m| == 4
  {
    [Byte(w, 0), Byte(w, 1), Byte(w, 2), Byte(w, 3)]
  }

  function CountBytes(count: nat): (m: seq<byte>)
    requires count < TWO_32
    ensures |m| == 4
  {
    Bytes(count as bv32)
  }

  // One bit, and as many zeros as bring the length to 56 bytes modulo 64.
  function Padding(n: nat): (m: seq<byte>)
    ensures 1 <= |m| <= 64 && (n + |m|) % 64 == 56
  {
    [0x80] + seq((55 - n) % 64, _ => 0)
  }

  // A length of n bytes as a number of bits in two words, low-order word first.
  function Length(n: nat): (m: seq<byte>)
    ensures |m| == 8
  {
    CountBytes(8 * n % TWO_32) + CountBytes(8 * n / TWO_32 % TWO_32)
  }

  lemma EightMore(n: nat)
    requires n % 64 == 56
    ensures (n + 8) % 64 == 0
  {
  }

  function Padded(m: seq<byte>): (p: seq<byte>)
    ensures |p| % 64 == 0
  {
    hide Padding, Length;
    EightMore(|m| + |Padding(|m|)|);
    m + Padding(|m|) + Length(|m|)
  }

  function Digest(m: seq<byte>): (digest: seq<byte>)
    ensures |digest| == 16
  {
    var r := Fold(Padded(m));
    Bytes(r.a) + Bytes(r.b) + Bytes(r.c) + Bytes(r.d)
  }
}
