/** One digest of the test suite in section A.5 of RFC 1321, step by step: that of the alphabet. */
module Md5Suite {
  import opened Sequences
  import opened Md5Definition
  import Md5

  // The small letters.
  function Message(): (m: seq<byte>)
    ensures |m| == 26
  {
    [0x61, 0x62, 0x63, 0x64, 0x65, 0x66, 0x67, 0x68, 0x69,
     0x6a, 0x6b, 0x6c, 0x6d, 0x6e, 0x6f, 0x70, 0x71, 0x72,
     0x73, 0x74, 0x75, 0x76, 0x77, 0x78, 0x79, 0x7a]
  }

  const X: seq<bv32> := [
    0x64636261, 0x68676665, 0x6c6b6a69, 0x706f6e6d,
    0x74737271, 0x78777675, 0x00807a79, 0x00000000,
    0x00000000, 0x00000000, 0x00000000, 0x00000000,
    0x00000000, 0x00000000, 0x000000d0, 0x00000000]

  const R0 := Regs(0x67452301, 0xefcdab89, 0x98badcfe, 0x10325476)
  const R1 := Regs(0xd7d3fcc3, 0x00e49261, 0x6c49fb7d, 0x3be167ca)

  lemma Next(r0: Regs, x: seq<bv32>, k: nat, r: Regs, w: nat, s: nat, t: bv32, v: bv32)
    requires |x| == 16 && w < 16 && s <= 32 && Md5.Uses(k, w, s, t)
    requires Steps(r0, x, 0, k) == r && Operation(r.a, r.b, Mix(k, r.b, r.c, r.d), x[w], s, t) == v
    ensures Steps(r0, x, 0, k + 1) == Regs(r.d, v, r.b, r.c)
  {
    hide Operation, Mix, T, Word, Shift;
  }

  lemma StepsTo2()
    ensures Steps(R0, X, 0, 2) == Regs(0x98badcfe, 0xaab1aaaa, 0xd6d117a6, 0xefcdab89)
  {
    Md5.Table1();
    hide Steps, T, Word, Shift;
    StepsNone(R0, X);
    Next(R0, X, 0, Regs(0x67452301, 0xefcdab89, 0x98badcfe, 0x10325476), 0, 7, 0xd76aa478, 0xd6d117a6);
    Next(R0, X, 1, Regs(0x10325476, 0xd6d117a6, 0xefcdab89, 0x98badcfe), 1, 12, 0xe8c7b756, 0xaab1aaaa);
  }

  lemma StepsTo4()
    requires Steps(R0, X, 0, 2) == Regs(0x98badcfe, 0xaab1aaaa, 0xd6d117a6, 0xefcdab89)
    ensures Steps(R0, X, 0, 4) == Regs(0xd6d117a6, 0x4503b812, 0x227d8cf1, 0xaab1aaaa)
  {
    Md5.Table1();
    hide Steps, T, Word, Shift;
    Next(R0, X, 2, Regs(0x98badcfe, 0xaab1aaaa, 0xd6d117a6, 0xefcdab89), 2, 17, 0x242070db, 0x227d8cf1);
    Next(R0, X, 3, Regs(0xefcdab89, 0x227d8cf1, 0xaab1aaaa, 0xd6d117a6), 3, 22, 0xc1bdceee, 0x4503b812);
  }

  lemma StepsTo8()
    requires Steps(R0, X, 0, 4) == Regs(0xd6d117a6, 0x4503b812, 0x227d8cf1, 0xaab1aaaa)
    ensures Steps(R0, X, 0, 8) == Regs(0xfe15f787, 0xda9bbb0d, 0xb71122fc, 0xa811b278)
  {
    Md5.Table1();
    hide Steps, T, Word, Shift;
    Next(R0, X, 4, Regs(0xd6d117a6, 0x4503b812, 0x227d8cf1, 0xaab1aaaa), 4, 7, 0xf57c0faf, 0xfe15f787);
    Next(R0, X, 5, Regs(0xaab1aaaa, 0xfe15f787, 0x4503b812, 0x227d8cf1), 5, 12, 0x4787c62a, 0xa811b278);
    Next(R0, X, 6, Regs(0x227d8cf1, 0xa811b278, 0xfe15f787, 0x4503b812), 6, 17, 0xa8304613, 0xb71122fc);
    Next(R0, X, 7, Regs(0x4503b812, 0xb71122fc, 0xa811b278, 0xfe15f787), 7, 22, 0xfd469501, 0xda9bbb0d);
  }

  lemma StepsTo12()
    requires Steps(R0, X, 0, 8) == Regs(0xfe15f787, 0xda9bbb0d, 0xb71122fc, 0xa811b278)
    ensures Steps(R0, X, 0, 12) == Regs(0xae752899, 0x56cfa5cb, 0x7d4bd80b, 0x2bbe757f)
  {
    Md5.Table1();
    hide Steps, T, Word, Shift;
    Next(R0, X, 8, Regs(0xfe15f787, 0xda9bbb0d, 0xb71122fc, 0xa811b278), 8, 7, 0x698098d8, 0xae752899);
    Next(R0, X, 9, Regs(0xa811b278, 0xae752899, 0xda9bbb0d, 0xb71122fc), 9, 12, 0x8b44f7af, 0x2bbe757f);
    Next(R0, X, 10, Regs(0xb71122fc, 0x2bbe757f, 0xae752899, 0xda9bbb0d), 10, 17, 0xffff5bb1, 0x7d4bd80b);
    Next(R0, X, 11, Regs(0xda9bbb0d, 0x7d4bd80b, 0x2bbe757f, 0xae752899), 11, 22, 0x895cd7be, 0x56cfa5cb);
  }

  lemma StepsTo16()
    requires Steps(R0, X, 0, 12) == Regs(0xae752899, 0x56cfa5cb, 0x7d4bd80b, 0x2bbe757f)
    ensures Steps(R0, X, 0, 16) == Regs(0x1754a316, 0x608d6b7e, 0x00df74d5, 0x85567d90)
  {
    Md5.Table1();
    hide Steps, T, Word, Shift;
    Next(R0, X, 12, Regs(0xae752899, 0x56cfa5cb, 0x7d4bd80b, 0x2bbe757f), 12, 7, 0x6b901122, 0x1754a316);
    Next(R0, X, 13, Regs(0x2bbe757f, 0x1754a316, 0x56cfa5cb, 0x7d4bd80b), 13, 12, 0xfd987193, 0x85567d90);
    Next(R0, X, 14, Regs(0x7d4bd80b, 0x85567d90, 0x1754a316, 0x56cfa5cb), 14, 17, 0xa679438e, 0x00df74d5);
    Next(R0, X, 15, Regs(0x56cfa5cb, 0x00df74d5, 0x85567d90, 0x1754a316), 15, 22, 0x49b40821, 0x608d6b7e);
  }

  lemma StepsTo20()
    requires Steps(R0, X, 0, 16) == Regs(0x1754a316, 0x608d6b7e, 0x00df74d5, 0x85567d90)
    ensures Steps(R0, X, 0, 20) == Regs(0x2d8071cc, 0x4c2145b3, 0xedfe7e4b, 0x5dcee119)
  {
    Md5.Table2();
    hide Steps, T, Word, Shift;
    Next(R0, X, 16, Regs(0x1754a316, 0x608d6b7e, 0x00df74d5, 0x85567d90), 1, 5, 0xf61e2562, 0x2d8071cc);
    Next(R0, X, 17, Regs(0x85567d90, 0x2d8071cc, 0x608d6b7e, 0x00df74d5), 6, 9, 0xc040b340, 0x5dcee119);
    Next(R0, X, 18, Regs(0x00df74d5, 0x5dcee119, 0x2d8071cc, 0x608d6b7e), 11, 14, 0x265e5a51, 0xedfe7e4b);
    Next(R0, X, 19, Regs(0x608d6b7e, 0xedfe7e4b, 0x5dcee119, 0x2d8071cc), 0, 20, 0xe9b6c7aa, 0x4c2145b3);
  }

  lemma StepsTo24()
    requires Steps(R0, X, 0, 20) == Regs(0x2d8071cc, 0x4c2145b3, 0xedfe7e4b, 0x5dcee119)
    ensures Steps(R0, X, 0, 24) == Regs(0x570c43e0, 0xc9f162d4, 0xc28ab49d, 0x977efd2a)
  {
    Md5.Table2();
    hide Steps, T, Word, Shift;
    Next(R0, X, 20, Regs(0x2d8071cc, 0x4c2145b3, 0xedfe7e4b, 0x5dcee119), 5, 5, 0xd62f105d, 0x570c43e0);
    Next(R0, X, 21, Regs(0x5dcee119, 0x570c43e0, 0x4c2145b3, 0xedfe7e4b), 10, 9, 0x02441453, 0x977efd2a);
    Next(R0, X, 22, Regs(0xedfe7e4b, 0x977efd2a, 0x570c43e0, 0x4c2145b3), 15, 14, 0xd8a1e681, 0xc28ab49d);
    Next(R0, X, 23, Regs(0x4c2145b3, 0xc28ab49d, 0x977efd2a, 0x570c43e0), 4, 20, 0xe7d3fbc8, 0xc9f162d4);
  }

  lemma StepsTo28()
    requires Steps(R0, X, 0, 24) == Regs(0x570c43e0, 0xc9f162d4, 0xc28ab49d, 0x977efd2a)
    ensures Steps(R0, X, 0, 28) == Regs(0x25bfae3b, 0xe6d3b398, 0xf8c8365f, 0x89980104)
  {
    Md5.Table2();
    hide Steps, T, Word, Shift;
    Next(R0, X, 24, Regs(0x570c43e0, 0xc9f162d4, 0xc28ab49d, 0x977efd2a), 9, 5, 0x21e1cde6, 0x25bfae3b);
    Next(R0, X, 25, Regs(0x977efd2a, 0x25bfae3b, 0xc9f162d4, 0xc28ab49d), 14, 9, 0xc33707d6, 0x89980104);
    Next(R0, X, 26, Regs(0xc28ab49d, 0x89980104, 0x25bfae3b, 0xc9f162d4), 3, 14, 0xf4d50d87, 0xf8c8365f);
    Next(R0, X, 27, Regs(0xc9f162d4, 0xf8c8365f, 0x89980104, 0x25bfae3b), 8, 20, 0x455a14ed, 0xe6d3b398);
  }

  lemma StepsTo32()
    requires Steps(R0, X, 0, 28) == Regs(0x25bfae3b, 0xe6d3b398, 0xf8c8365f, 0x89980104)
    ensures Steps(R0, X, 0, 32) == Regs(0xf54d8710, 0xaeb35766, 0x2e69afc7, 0x927b72e2)
  {
    Md5.Table2();
    hide Steps, T, Word, Shift;
    Next(R0, X, 28, Regs(0x25bfae3b, 0xe6d3b398, 0xf8c8365f, 0x89980104), 13, 5, 0xa9e3e905, 0xf54d8710);
    Next(R0, X, 29, Regs(0x89980104, 0xf54d8710, 0xe6d3b398, 0xf8c8365f), 2, 9, 0xfcefa3f8, 0x927b72e2);
    Next(R0, X, 30, Regs(0xf8c8365f, 0x927b72e2, 0xf54d8710, 0xe6d3b398), 7, 14, 0x676f02d9, 0x2e69afc7);
    Next(R0, X, 31, Regs(0xe6d3b398, 0x2e69afc7, 0x927b72e2, 0xf54d8710), 12, 20, 0x8d2a4c8a, 0xaeb35766);
  }

  lemma StepsTo36()
    requires Steps(R0, X, 0, 32) == Regs(0xf54d8710, 0xaeb35766, 0x2e69afc7, 0x927b72e2)
    ensures Steps(R0, X, 0, 36) == Regs(0xb4bf680e, 0x06a5e211, 0x2361ed0a, 0x4c8ffa80)
  {
    Md5.Table3();
    hide Steps, T, Word, Shift;
    Next(R0, X, 32, Regs(0xf54d8710, 0xaeb35766, 0x2e69afc7, 0x927b72e2), 5, 4, 0xfffa3942, 0xb4bf680e);
    Next(R0, X, 33, Regs(0x927b72e2, 0xb4bf680e, 0xaeb35766, 0x2e69afc7), 8, 11, 0x8771f681, 0x4c8ffa80);
    Next(R0, X, 34, Regs(0x2e69afc7, 0x4c8ffa80, 0xb4bf680e, 0xaeb35766), 11, 16, 0x6d9d6122, 0x2361ed0a);
    Next(R0, X, 35, Regs(0xaeb35766, 0x2361ed0a, 0x4c8ffa80, 0xb4bf680e), 14, 23, 0xfde5380c, 0x06a5e211);
  }

  lemma StepsTo40()
    requires Steps(R0, X, 0, 36) == Regs(0xb4bf680e, 0x06a5e211, 0x2361ed0a, 0x4c8ffa80)
    ensures Steps(R0, X, 0, 40) == Regs(0xb9c0c733, 0x8d41bf99, 0x23a9451b, 0xf1e6dc7a)
  {
    Md5.Table3();
    hide Steps, T, Word, Shift;
    Next(R0, X, 36, Regs(0xb4bf680e, 0x06a5e211, 0x2361ed0a, 0x4c8ffa80), 1, 4, 0xa4beea44, 0xb9c0c733);
    Next(R0, X, 37, Regs(0x4c8ffa80, 0xb9c0c733, 0x06a5e211, 0x2361ed0a), 4, 11, 0x4bdecfa9, 0xf1e6dc7a);
    Next(R0, X, 38, Regs(0x2361ed0a, 0xf1e6dc7a, 0xb9c0c733, 0x06a5e211), 7, 16, 0xf6bb4b60, 0x23a9451b);
    Next(R0, X, 39, Regs(0x06a5e211, 0x23a9451b, 0xf1e6dc7a, 0xb9c0c733), 10, 23, 0xbebfbc70, 0x8d41bf99);
  }

  lemma StepsTo44()
    requires Steps(R0, X, 0, 40) == Regs(0xb9c0c733, 0x8d41bf99, 0x23a9451b, 0xf1e6dc7a)
    ensures Steps(R0, X, 0, 44) == Regs(0xa3e88ead, 0x90a35af5, 0x66f6468d, 0x02c0b11c)
  {
    Md5.Table3();
    hide Steps, T, Word, Shift;
    Next(R0, X, 40, Regs(0xb9c0c733, 0x8d41bf99, 0x23a9451b, 0xf1e6dc7a), 13, 4, 0x289b7ec6, 0xa3e88ead);
    Next(R0, X, 41, Regs(0xf1e6dc7a, 0xa3e88ead, 0x8d41bf99, 0x23a9451b), 0, 11, 0xeaa127fa, 0x02c0b11c);
    Next(R0, X, 42, Regs(0x23a9451b, 0x02c0b11c, 0xa3e88ead, 0x8d41bf99), 3, 16, 0xd4ef3085, 0x66f6468d);
    Next(R0, X, 43, Regs(0x8d41bf99, 0x66f6468d, 0x02c0b11c, 0xa3e88ead), 6, 23, 0x04881d05, 0x90a35af5);
  }

  lemma StepsTo48()
    requires Steps(R0, X, 0, 44) == Regs(0xa3e88ead, 0x90a35af5, 0x66f6468d, 0x02c0b11c)
    ensures Steps(R0, X, 0, 48) == Regs(0xb5d41f9c, 0x71d10367, 0x703d54d8, 0xa04b4904)
  {
    Md5.Table3();
    hide Steps, T, Word, Shift;
    Next(R0, X, 44, Regs(0xa3e88ead, 0x90a35af5, 0x66f6468d, 0x02c0b11c), 9, 4, 0xd9d4d039, 0xb5d41f9c);
    Next(R0, X, 45, Regs(0x02c0b11c, 0xb5d41f9c, 0x90a35af5, 0x66f6468d), 12, 11, 0xe6db99e5, 0xa04b4904);
    Next(R0, X, 46, Regs(0x66f6468d, 0xa04b4904, 0xb5d41f9c, 0x90a35af5), 15, 16, 0x1fa27cf8, 0x703d54d8);
    Next(R0, X, 47, Regs(0x90a35af5, 0x703d54d8, 0xa04b4904, 0xb5d41f9c), 2, 23, 0xc4ac5665, 0x71d10367);
  }

  lemma StepsTo52()
    requires Steps(R0, X, 0, 48) == Regs(0xb5d41f9c, 0x71d10367, 0x703d54d8, 0xa04b4904)
    ensures Steps(R0, X, 0, 52) == Regs(0xfc32dd6e, 0x33edb197, 0xb35602cb, 0x65456b34)
  {
    Md5.Table4();
    hide Steps, T, Word, Shift;
    Next(R0, X, 48, Regs(0xb5d41f9c, 0x71d10367, 0x703d54d8, 0xa04b4904), 0, 6, 0xf4292244, 0xfc32dd6e);
    Next(R0, X, 49, Regs(0xa04b4904, 0xfc32dd6e, 0x71d10367, 0x703d54d8), 7, 10, 0x432aff97, 0x65456b34);
    Next(R0, X, 50, Regs(0x703d54d8, 0x65456b34, 0xfc32dd6e, 0x71d10367), 14, 15, 0xab9423a7, 0xb35602cb);
    Next(R0, X, 51, Regs(0x71d10367, 0xb35602cb, 0x65456b34, 0xfc32dd6e), 5, 21, 0xfc93a039, 0x33edb197);
  }

  lemma StepsTo56()
    requires Steps(R0, X, 0, 52) == Regs(0xfc32dd6e, 0x33edb197, 0xb35602cb, 0x65456b34)
    ensures Steps(R0, X, 0, 56) == Regs(0xc1e942f1, 0x83877d1b, 0x23a68048, 0xd9bb987c)
  {
    Md5.Table4();
    hide Steps, T, Word, Shift;
    Next(R0, X, 52, Regs(0xfc32dd6e, 0x33edb197, 0xb35602cb, 0x65456b34), 12, 6, 0x655b59c3, 0xc1e942f1);
    Next(R0, X, 53, Regs(0x65456b34, 0xc1e942f1, 0x33edb197, 0xb35602cb), 3, 10, 0x8f0ccc92, 0xd9bb987c);
    Next(R0, X, 54, Regs(0xb35602cb, 0xd9bb987c, 0xc1e942f1, 0x33edb197), 10, 15, 0xffeff47d, 0x23a68048);
    Next(R0, X, 55, Regs(0x33edb197, 0x23a68048, 0xd9bb987c, 0xc1e942f1), 1, 21, 0x85845dd1, 0x83877d1b);
  }

  lemma StepsTo60()
    requires Steps(R0, X, 0, 56) == Regs(0xc1e942f1, 0x83877d1b, 0x23a68048, 0xd9bb987c)
    ensures Steps(R0, X, 0, 60) == Regs(0x0077c208, 0x5e6bc930, 0xa3e2247f, 0x847fc2e7)
  {
    Md5.Table4();
    hide Steps, T, Word, Shift;
    Next(R0, X, 56, Regs(0xc1e942f1, 0x83877d1b, 0x23a68048, 0xd9bb987c), 8, 6, 0x6fa87e4f, 0x0077c208);
    Next(R0, X, 57, Regs(0xd9bb987c, 0x0077c208, 0x83877d1b, 0x23a68048), 15, 10, 0xfe2ce6e0, 0x847fc2e7);
    Next(R0, X, 58, Regs(0x23a68048, 0x847fc2e7, 0x0077c208, 0x83877d1b), 6, 15, 0xa3014314, 0xa3e2247f);
    Next(R0, X, 59, Regs(0x83877d1b, 0xa3e2247f, 0x847fc2e7, 0x0077c208), 13, 21, 0x4e0811a1, 0x5e6bc930);
  }

  lemma StepsTo64()
    requires Steps(R0, X, 0, 60) == Regs(0x0077c208, 0x5e6bc930, 0xa3e2247f, 0x847fc2e7)
    ensures Steps(R0, X, 0, 64) == Regs(0x708ed9c2, 0x1116e6d8, 0xd38f1e7f, 0x2baf1354)
  {
    Md5.Table4();
    hide Steps, T, Word, Shift;
    Next(R0, X, 60, Regs(0x0077c208, 0x5e6bc930, 0xa3e2247f, 0x847fc2e7), 4, 6, 0xf7537e82, 0x708ed9c2);
    Next(R0, X, 61, Regs(0x847fc2e7, 0x708ed9c2, 0x5e6bc930, 0xa3e2247f), 11, 10, 0xbd3af235, 0x2baf1354);
    Next(R0, X, 62, Regs(0xa3e2247f, 0x2baf1354, 0x708ed9c2, 0x5e6bc930), 2, 15, 0x2ad7d2bb, 0xd38f1e7f);
    Next(R0, X, 63, Regs(0x5e6bc930, 0xd38f1e7f, 0x2baf1354, 0x708ed9c2), 9, 21, 0xeb86d391, 0x1116e6d8);
  }

  lemma StepsNone(r: Regs, x: seq<bv32>)
    requires |x| == 16
    ensures Steps(r, x, 0, 0) == r
  {
  }

  // The message with its padding and its length of 208 bits.
  function Block(): (b: seq<byte>)
    ensures |b| == 64
  {
    Message() + [0x80] + seq(29, _ => 0) + [0xd0, 0, 0, 0, 0, 0, 0, 0]
  }

  lemma LengthIs()
    ensures Length(26) == [0xd0, 0, 0, 0, 0, 0, 0, 0]
  {
    assert CountBytes(208) == [0xd0, 0, 0, 0];
    assert CountBytes(0) == [0, 0, 0, 0];
  }

  lemma PaddedIs()
    ensures Padded(Message()) == Block()
  {
    LengthIs();
    hide Length, Message;
    assert Padding(26) == [0x80] + seq(29, _ => 0);
    assert Padded(Message()) == Message() + Padding(26) + Length(26);
  }

  lemma WordIs(b: seq<byte>, k: nat, w: bv32, m: seq<byte>)
    requires |b| == 64 && |m| == 4 && k < 16 && WordOf(m) == w
    requires b[4 * k] == m[0] && b[4 * k + 1] == m[1] && b[4 * k + 2] == m[2] && b[4 * k + 3] == m[3]
    ensures Words(b)[k] == w
  {
    hide WordOf;
    assert b[4 * k..4 * k + 4] == m;
  }

  lemma WordsFrom0()
    ensures Words(Block())[0] == X[0]
  {
    var b := Block();
    hide Words;
    WordIs(b, 0, 0x64636261, [0x61, 0x62, 0x63, 0x64]);
  }

  lemma WordsFrom1()
    ensures Words(Block())[1] == X[1]
  {
    var b := Block();
    hide Words;
    WordIs(b, 1, 0x68676665, [0x65, 0x66, 0x67, 0x68]);
  }

  lemma WordsFrom2()
    ensures Words(Block())[2] == X[2]
  {
    var b := Block();
    hide Words;
    WordIs(b, 2, 0x6c6b6a69, [0x69, 0x6a, 0x6b, 0x6c]);
  }

  lemma WordsFrom3()
    ensures Words(Block())[3] == X[3]
  {
    var b := Block();
    hide Words;
    WordIs(b, 3, 0x706f6e6d, [0x6d, 0x6e, 0x6f, 0x70]);
  }

  lemma WordsFrom4()
    ensures var x := Words(Block()); x[4] == X[4] && x[5] == X[5]
  {
    var b := Block();
    hide Words;
    WordIs(b, 4, 0x74737271, [0x71, 0x72, 0x73, 0x74]);
    WordIs(b, 5, 0x78777675, [0x75, 0x76, 0x77, 0x78]);
  }

  lemma WordsFrom6()
    ensures var x := Words(Block()); x[6] == X[6] && x[7] == X[7]
  {
    var b := Block();
    hide Words;
    WordIs(b, 6, 0x00807a79, [0x79, 0x7a, 0x80, 0x00]);
    WordIs(b, 7, 0x00000000, [0x00, 0x00, 0x00, 0x00]);
  }

  lemma WordsFrom8()
    ensures var x := Words(Block()); x[8] == X[8] && x[9] == X[9]
  {
    var b := Block();
    hide Words;
    WordIs(b, 8, 0x00000000, [0x00, 0x00, 0x00, 0x00]);
    WordIs(b, 9, 0x00000000, [0x00, 0x00, 0x00, 0x00]);
  }

  lemma WordsFrom10()
    ensures var x := Words(Block()); x[10] == X[10] && x[11] == X[11]
  {
    var b := Block();
    hide Words;
    WordIs(b, 10, 0x00000000, [0x00, 0x00, 0x00, 0x00]);
    WordIs(b, 11, 0x00000000, [0x00, 0x00, 0x00, 0x00]);
  }

  lemma WordsFrom12()
    ensures var x := Words(Block()); x[12] == X[12] && x[13] == X[13]
  {
    var b := Block();
    hide Words;
    WordIs(b, 12, 0x00000000, [0x00, 0x00, 0x00, 0x00]);
    WordIs(b, 13, 0x00000000, [0x00, 0x00, 0x00, 0x00]);
  }

  lemma WordsFrom14()
    ensures var x := Words(Block()); x[14] == X[14] && x[15] == X[15]
  {
    var b := Block();
    hide Words;
    WordIs(b, 14, 0x000000d0, [0xd0, 0x00, 0x00, 0x00]);
    WordIs(b, 15, 0x00000000, [0x00, 0x00, 0x00, 0x00]);
  }

  lemma WordsOfBlock()
    ensures Words(Block()) == X
  {
    WordsFrom0();
    WordsFrom1();
    WordsFrom2();
    WordsFrom3();
    WordsFrom4();
    WordsFrom6();
    WordsFrom8();
    WordsFrom10();
    WordsFrom12();
    WordsFrom14();
    hide Words, Block;
  }

  lemma BlockCompressed()
    ensures Compress(R0, Block()) == R1
  {
    WordsOfBlock();
    hide Words, Steps, Block;
    StepsTo2();
    StepsTo4();
    StepsTo8();
    StepsTo12();
    StepsTo16();
    StepsTo20();
    StepsTo24();
    StepsTo28();
    StepsTo32();
    StepsTo36();
    StepsTo40();
    StepsTo44();
    StepsTo48();
    StepsTo52();
    StepsTo56();
    StepsTo60();
    StepsTo64();
  }

  /** The digest of the letters from a to z. */
  lemma AlphabetDigest()
    ensures Digest(Message()) == [
      0xc3, 0xfc, 0xd3, 0xd7, 0x61, 0x92, 0xe4, 0x00,
      0x7d, 0xfb, 0x49, 0x6c, 0xca, 0x67, 0xe1, 0x3b]
  {
    PaddedIs();
    BlockCompressed();
    hide Compress, Padded, Block, Message;
    var a := Block();
    assert a[..0] == [] && a[0..] == a && Fold([]) == R0;
    assert Fold(a) == Compress(Fold([]), a);
    hide Fold;
  }
}
