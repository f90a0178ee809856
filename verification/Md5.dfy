/** The incremental implementation of MD5: a message is appended piece by piece. */
module Md5 {
  import opened Sequences
  import opened Md5Definition

  lemma Four(r: Regs, x: seq<bv32>, from: nat, i: nat)
    requires |x| == 16 && from <= i
    ensures Steps(r, x, from, i + 4)
      == Step(i + 3, Step(i + 2, Step(i + 1, Step(i, Steps(r, x, from, i), x), x), x), x)
    ensures Steps(r, x, from, from) == r
  {
    hide Step;
    assert Steps(r, x, from, i + 2) == Step(i + 1, Step(i, Steps(r, x, from, i), x), x);
  }

  const T_MASK: bv32 := 0xffff_ffff

  predicate Uses(i: nat, k: nat, s: nat, t: bv32) {
    Word(i) == k && Shift(i) == s && T(i) == t
  }

  lemma Table1()
    ensures Uses(0, 0, 7, T_MASK ^ 0x28955b87) && Uses(1, 1, 12, T_MASK ^ 0x173848a9)
    ensures Uses(2, 2, 17, 0x242070db) && Uses(3, 3, 22, T_MASK ^ 0x3e423111)
    ensures Uses(4, 4, 7, T_MASK ^ 0x0a83f050) && Uses(5, 5, 12, 0x4787c62a)
    ensures Uses(6, 6, 17, T_MASK ^ 0x57cfb9ec) && Uses(7, 7, 22, T_MASK ^ 0x02b96afe)
    ensures Uses(8, 8, 7, 0x698098d8) && Uses(9, 9, 12, T_MASK ^ 0x74bb0850)
    ensures Uses(10, 10, 17, T_MASK ^ 0x0000a44e) && Uses(11, 11, 22, T_MASK ^ 0x76a32841)
    ensures Uses(12, 12, 7, 0x6b901122) && Uses(13, 13, 12, T_MASK ^ 0x02678e6c)
    ensures Uses(14, 14, 17, T_MASK ^ 0x5986bc71) && Uses(15, 15, 22, 0x49b40821)
  {
  }

  method Round1(r: Regs, x: seq<bv32>) returns (a: bv32, b: bv32, c: bv32, d: bv32)
    requires |x| == 16
    ensures Regs(a, b, c, d) == Steps(r, x, 0, 16)
  {
    Table1();
    hide Operation, F, G, H, I, T, Steps, Word, Shift;
    a, b, c, d := r.a, r.b, r.c, r.d;
    a := Operation(a, b, F(b, c, d), x[0], 7, T_MASK ^ 0x28955b87);
    d := Operation(d, a, F(a, b, c), x[1], 12, T_MASK ^ 0x173848a9);
    c := Operation(c, d, F(d, a, b), x[2], 17, 0x242070db);
    b := Operation(b, c, F(c, d, a), x[3], 22, T_MASK ^ 0x3e423111);
    Four(r, x, 0, 0);
    assert Steps(r, x, 0, 4) == Regs(a, b, c, d);
    a := Operation(a, b, F(b, c, d), x[4], 7, T_MASK ^ 0x0a83f050);
    d := Operation(d, a, F(a, b, c), x[5], 12, 0x4787c62a);
    c := Operation(c, d, F(d, a, b), x[6], 17, T_MASK ^ 0x57cfb9ec);
    b := Operation(b, c, F(c, d, a), x[7], 22, T_MASK ^ 0x02b96afe);
    Four(r, x, 0, 4);
    assert Steps(r, x, 0, 8) == Regs(a, b, c, d);
    a := Operation(a, b, F(b, c, d), x[8], 7, 0x698098d8);
    d := Operation(d, a, F(a, b, c), x[9], 12, T_MASK ^ 0x74bb0850);
    c := Operation(c, d, F(d, a, b), x[10], 17, T_MASK ^ 0x0000a44e);
    b := Operation(b, c, F(c, d, a), x[11], 22, T_MASK ^ 0x76a32841);
    Four(r, x, 0, 8);
    assert Steps(r, x, 0, 12) == Regs(a, b, c, d);
    a := Operation(a, b, F(b, c, d), x[12], 7, 0x6b901122);
    d := Operation(d, a, F(a, b, c), x[13], 12, T_MASK ^ 0x02678e6c);
    c := Operation(c, d, F(d, a, b), x[14], 17, T_MASK ^ 0x5986bc71);
    b := Operation(b, c, F(c, d, a), x[15], 22, 0x49b40821);
    Four(r, x, 0, 12);
    assert Steps(r, x, 0, 16) == Regs(a, b, c, d);
  }

  lemma Table2()
    ensures Uses(16, 1, 5, T_MASK ^ 0x09e1da9d) && Uses(17, 6, 9, T_MASK ^ 0x3fbf4cbf)
    ensures Uses(18, 11, 14, 0x265e5a51) && Uses(19, 0, 20, T_MASK ^ 0x16493855)
    ensures Uses(20, 5, 5, T_MASK ^ 0x29d0efa2) && Uses(21, 10, 9, 0x02441453)
    ensures Uses(22, 15, 14, T_MASK ^ 0x275e197e) && Uses(23, 4, 20, T_MASK ^ 0x182c0437)
    ensures Uses(24, 9, 5, 0x21e1cde6) && Uses(25, 14, 9, T_MASK ^ 0x3cc8f829)
    ensures Uses(26, 3, 14, T_MASK ^ 0x0b2af278) && Uses(27, 8, 20, 0x455a14ed)
    ensures Uses(28, 13, 5, T_MASK ^ 0x561c16fa) && Uses(29, 2, 9, T_MASK ^ 0x03105c07)
    ensures Uses(30, 7, 14, 0x676f02d9) && Uses(31, 12, 20, T_MASK ^ 0x72d5b375)
  {
  }

  method Round2(r: Regs, x: seq<bv32>) returns (a: bv32, b: bv32, c: bv32, d: bv32)
    requires |x| == 16
    ensures Regs(a, b, c, d) == Steps(r, x, 16, 32)
  {
    Table2();
    hide Operation, F, G, H, I, T, Steps, Word, Shift;
    a, b, c, d := r.a, r.b, r.c, r.d;
    a := Operation(a, b, G(b, c, d), x[1], 5, T_MASK ^ 0x09e1da9d);
    d := Operation(d, a, G(a, b, c), x[6], 9, T_MASK ^ 0x3fbf4cbf);
    c := Operation(c, d, G(d, a, b), x[11], 14, 0x265e5a51);
    b := Operation(b, c, G(c, d, a), x[0], 20, T_MASK ^ 0x16493855);
    Four(r, x, 16, 16);
    assert Steps(r, x, 16, 20) == Regs(a, b, c, d);
    a := Operation(a, b, G(b, c, d), x[5], 5, T_MASK ^ 0x29d0efa2);
    d := Operation(d, a, G(a, b, c), x[10], 9, 0x02441453);
    c := Operation(c, d, G(d, a, b), x[15], 14, T_MASK ^ 0x275e197e);
    b := Operation(b, c, G(c, d, a), x[4], 20, T_MASK ^ 0x182c0437);
    Four(r, x, 16, 20);
    assert Steps(r, x, 16, 24) == Regs(a, b, c, d);
    a := Operation(a, b, G(b, c, d), x[9], 5, 0x21e1cde6);
    d := Operation(d, a, G(a, b, c), x[14], 9, T_MASK ^ 0x3cc8f829);
    c := Operation(c, d, G(d, a, b), x[3], 14, T_MASK ^ 0x0b2af278);
    b := Operation(b, c, G(c, d, a), x[8], 20, 0x455a14ed);
    Four(r, x, 16, 24);
    assert Steps(r, x, 16, 28) == Regs(a, b, c, d);
    a := Operation(a, b, G(b, c, d), x[13], 5, T_MASK ^ 0x561c16fa);
    d := Operation(d, a, G(a, b, c), x[2], 9, T_MASK ^ 0x03105c07);
    c := Operation(c, d, G(d, a, b), x[7], 14, 0x676f02d9);
    b := Operation(b, c, G(c, d, a), x[12], 20, T_MASK ^ 0x72d5b375);
    Four(r, x, 16, 28);
    assert Steps(r, x, 16, 32) == Regs(a, b, c, d);
  }

  lemma Table3()
    ensures Uses(32, 5, 4, T_MASK ^ 0x0005c6bd) && Uses(33, 8, 11, T_MASK ^ 0x788e097e)
    ensures Uses(34, 11, 16, 0x6d9d6122) && Uses(35, 14, 23, T_MASK ^ 0x021ac7f3)
    ensures Uses(36, 1, 4, T_MASK ^ 0x5b4115bb) && Uses(37, 4, 11, 0x4bdecfa9)
    ensures Uses(38, 7, 16, T_MASK ^ 0x0944b49f) && Uses(39, 10, 23, T_MASK ^ 0x4140438f)
    ensures Uses(40, 13, 4, 0x289b7ec6) && Uses(41, 0, 11, T_MASK ^ 0x155ed805)
    ensures Uses(42, 3, 16, T_MASK ^ 0x2b10cf7a) && Uses(43, 6, 23, 0x04881d05)
    ensures Uses(44, 9, 4, T_MASK ^ 0x262b2fc6) && Uses(45, 12, 11, T_MASK ^ 0x1924661a)
    ensures Uses(46, 15, 16, 0x1fa27cf8) && Uses(47, 2, 23, T_MASK ^ 0x3b53a99a)
  {
  }

  method Round3(r: Regs, x: seq<bv32>) returns (a: bv32, b: bv32, c: bv32, d: bv32)
    requires |x| == 16
    ensures Regs(a, b, c, d) == Steps(r, x, 32, 48)
  {
    Table3();
    hide Operation, F, G, H, I, T, Steps, Word, Shift;
    a, b, c, d := r.a, r.b, r.c, r.d;
    a := Operation(a, b, H(b, c, d), x[5], 4, T_MASK ^ 0x0005c6bd);
    d := Operation(d, a, H(a, b, c), x[8], 11, T_MASK ^ 0x788e097e);
    c := Operation(c, d, H(d, a, b), x[11], 16, 0x6d9d6122);
    b := Operation(b, c, H(c, d, a), x[14], 23, T_MASK ^ 0x021ac7f3);
    Four(r, x, 32, 32);
    assert Steps(r, x, 32, 36) == Regs(a, b, c, d);
    a := Operation(a, b, H(b, c, d), x[1], 4, T_MASK ^ 0x5b4115bb);
    d := Operation(d, a, H(a, b, c), x[4], 11, 0x4bdecfa9);
    c := Operation(c, d, H(d, a, b), x[7], 16, T_MASK ^ 0x0944b49f);
    b := Operation(b, c, H(c, d, a), x[10], 23, T_MASK ^ 0x4140438f);
    Four(r, x, 32, 36);
    assert Steps(r, x, 32, 40) == Regs(a, b, c, d);
    a := Operation(a, b, H(b, c, d), x[13], 4, 0x289b7ec6);
    d := Operation(d, a, H(a, b, c), x[0], 11, T_MASK ^ 0x155ed805);
    c := Operation(c, d, H(d, a, b), x[3], 16, T_MASK ^ 0x2b10cf7a);
    b := Operation(b, c, H(c, d, a), x[6], 23, 0x04881d05);
    Four(r, x, 32, 40);
    assert Steps(r, x, 32, 44) == Regs(a, b, c, d);
    a := Operation(a, b, H(b, c, d), x[9], 4, T_MASK ^ 0x262b2fc6);
    d := Operation(d, a, H(a, b, c), x[12], 11, T_MASK ^ 0x1924661a);
    c := Operation(c, d, H(d, a, b), x[15], 16, 0x1fa27cf8);
    b := Operation(b, c, H(c, d, a), x[2], 23, T_MASK ^ 0x3b53a99a);
    Four(r, x, 32, 44);
    assert Steps(r, x, 32, 48) == Regs(a, b, c, d);
  }

  lemma Table4()
    ensures Uses(48, 0, 6, T_MASK ^ 0x0bd6ddbb) && Uses(49, 7, 10, 0x432aff97)
    ensures Uses(50, 14, 15, T_MASK ^ 0x546bdc58) && Uses(51, 5, 21, T_MASK ^ 0x036c5fc6)
    ensures Uses(52, 12, 6, 0x655b59c3) && Uses(53, 3, 10, T_MASK ^ 0x70f3336d)
    ensures Uses(54, 10, 15, T_MASK ^ 0x00100b82) && Uses(55, 1, 21, T_MASK ^ 0x7a7ba22e)
    ensures Uses(56, 8, 6, 0x6fa87e4f) && Uses(57, 15, 10, T_MASK ^ 0x01d3191f)
    ensures Uses(58, 6, 15, T_MASK ^ 0x5cfebceb) && Uses(59, 13, 21, 0x4e0811a1)
    ensures Uses(60, 4, 6, T_MASK ^ 0x08ac817d) && Uses(61, 11, 10, T_MASK ^ 0x42c50dca)
    ensures Uses(62, 2, 15, 0x2ad7d2bb) && Uses(63, 9, 21, T_MASK ^ 0x14792c6e)
  {
  }

  method Round4(r: Regs, x: seq<bv32>) returns (a: bv32, b: bv32, c: bv32, d: bv32)
    requires |x| == 16
    ensures Regs(a, b, c, d) == Steps(r, x, 48, 64)
  {
    Table4();
    hide Operation, F, G, H, I, T, Steps, Word, Shift;
    a, b, c, d := r.a, r.b, r.c, r.d;
    a := Operation(a, b, I(b, c, d), x[0], 6, T_MASK ^ 0x0bd6ddbb);
    d := Operation(d, a, I(a, b, c), x[7], 10, 0x432aff97);
    c := Operation(c, d, I(d, a, b), x[14], 15, T_MASK ^ 0x546bdc58);
    b := Operation(b, c, I(c, d, a), x[5], 21, T_MASK ^ 0x036c5fc6);
    Four(r, x, 48, 48);
    assert Steps(r, x, 48, 52) == Regs(a, b, c, d);
    a := Operation(a, b, I(b, c, d), x[12], 6, 0x655b59c3);
    d := Operation(d, a, I(a, b, c), x[3], 10, T_MASK ^ 0x70f3336d);
    c := Operation(c, d, I(d, a, b), x[10], 15, T_MASK ^ 0x00100b82);
    b := Operation(b, c, I(c, d, a), x[1], 21, T_MASK ^ 0x7a7ba22e);
    Four(r, x, 48, 52);
    assert Steps(r, x, 48, 56) == Regs(a, b, c, d);
    a := Operation(a, b, I(b, c, d), x[8], 6, 0x6fa87e4f);
    d := Operation(d, a, I(a, b, c), x[15], 10, T_MASK ^ 0x01d3191f);
    c := Operation(c, d, I(d, a, b), x[6], 15, T_MASK ^ 0x5cfebceb);
    b := Operation(b, c, I(c, d, a), x[13], 21, 0x4e0811a1);
    Four(r, x, 48, 56);
    assert Steps(r, x, 48, 60) == Regs(a, b, c, d);
    a := Operation(a, b, I(b, c, d), x[4], 6, T_MASK ^ 0x08ac817d);
    d := Operation(d, a, I(a, b, c), x[11], 10, T_MASK ^ 0x42c50dca);
    c := Operation(c, d, I(d, a, b), x[2], 15, 0x2ad7d2bb);
    b := Operation(b, c, I(c, d, a), x[9], 21, T_MASK ^ 0x14792c6e);
    Four(r, x, 48, 60);
    assert Steps(r, x, 48, 64) == Regs(a, b, c, d);
  }

  // A word from four bytes, wherever they are in memory.
  method Load(data: seq<byte>) returns (x: seq<bv32>)
    requires |data| == 64
    ensures x == Words(data)
  {
    var xbuf := new bv32[16];
    var i := 0;
    while i < 16
      invariant 0 <= i <= 16
      invariant forall k :: 0 <= k < i ==> xbuf[k] == WordOf(data[4 * k..4 * k + 4])
    {
      hide WordOf;
      xbuf[i] := WordOf(data[4 * i..4 * i + 4]);
      i := i + 1;
    }
    x := xbuf[..];
  }

  lemma StepsCompose(r: Regs, x: seq<bv32>, from: nat, mid: nat, to: nat)
    requires |x| == 16 && from <= mid <= to
    ensures Steps(r, x, from, to) == Steps(Steps(r, x, from, mid), x, mid, to)
  {
    hide Step;
    if mid < to {
      StepsCompose(r, x, from, mid, to - 1);
    }
  }

  // --- The state of an incremental computation ---

  class Md5State {
    var count0: nat  // the length in bits: the low-order word,
    var count1: nat  // and the high-order word
    const abcd: array<bv32>
    const buf: array<byte>
    ghost var message: seq<byte>

    ghost predicate Shaped() {
      abcd.Length == 4 && buf.Length == 64
    }

    ghost function Registers(): Regs
      requires Shaped()
      reads abcd
    {
      Regs(abcd[0], abcd[1], abcd[2], abcd[3])
    }

    ghost predicate Counted(n: nat)
      reads this
    {
      count0 == 8 * (n % 0x2000_0000) && count1 == n / 0x2000_0000 % TWO_32
    }

    // The whole blocks of m are folded and the rest of it is buffered.
    ghost predicate Absorbed(m: seq<byte>)
      requires Shaped()
      reads abcd, buf
    {
      var tail := |m| % 64;
      Registers() == Fold(m[..|m| - tail]) && buf[..tail] == m[|m| - tail..]
    }

    ghost predicate Valid()
      reads this, abcd, buf
    {
      Shaped() && Counted(|message|) && Absorbed(message)
    }

    constructor ()
      ensures Valid() && message == [] && fresh(abcd) && fresh(buf)
    {
      count0, count1, message := 0, 0, [];
      abcd := new bv32[4];
      buf := new byte[64];
      new;
      abcd[0], abcd[1] := 0x67452301, T_MASK ^ 0x10325476;
      abcd[2], abcd[3] := T_MASK ^ 0x67452301, 0x10325476;
    }

    method Process(data: seq<byte>)
      requires Shaped() && |data| == 64
      modifies abcd
      ensures Registers() == Compress(old(Registers()), data)
    {
      hide Steps, Plus, Words;
      var x := Load(data);
      var r := Regs(abcd[0], abcd[1], abcd[2], abcd[3]);
      var a, b, c, d := Round1(r, x);
      a, b, c, d := Round2(Regs(a, b, c, d), x);
      StepsCompose(r, x, 0, 16, 32);
      a, b, c, d := Round3(Regs(a, b, c, d), x);
      StepsCompose(r, x, 0, 32, 48);
      a, b, c, d := Round4(Regs(a, b, c, d), x);
      StepsCompose(r, x, 0, 48, 64);
      abcd[0] := Plus(abcd[0], a);
      abcd[1] := Plus(abcd[1], b);
      abcd[2] := Plus(abcd[2], c);
      abcd[3] := Plus(abcd[3], d);
    }

    // Adds to the length, with the carry from the low-order word.
    method Count(ghost n: nat, nbytes: nat)
      requires Counted(n)
      modifies this`count0, this`count1
      ensures Counted(n + nbytes)
    {
      SplitBits(nbytes);
      SplitSum(n, nbytes);
      var nbits := 8 * nbytes % TWO_32;
      count1 := (count1 + nbytes / 0x2000_0000) % TWO_32;
      count0 := (count0 + nbits) % TWO_32;
      if count0 < nbits {
        count1 := (count1 + 1) % TWO_32;
      }
    }

    method Append(data: seq<byte>)
      requires Valid()
      modifies this, abcd, buf
      ensures Valid() && message == old(message) + data
    {
      hide Fold, Compress;
      OffsetIsTail(|message|);
      var offset := count0 / 8 % 64;
      if data == [] {
        assert message + data == message;
        return;
      }
      ghost var before := message;
      message := message + data;
      assert Counted(|before|);
      hide Counted;
      Count(|before|, |data|);
      var p := 0;
      if offset > 0 {
        p := First(before, data, offset);
        if p < 64 - offset {
          return;
        }
      } else {
        assert before[..|before| - 0] == before + data[..p];
      }
      hide Absorbed;
      p := Blocks(before, data, p);
      Keep(before, data, p);
    }

    // Fills up the partial block, and processes it when it is full.
    method First(ghost before: seq<byte>, data: seq<byte>, offset: nat) returns (copy: nat)
      requires Shaped() && Absorbed(before) && 0 < offset == |before| % 64
      modifies abcd, buf
      ensures copy == if offset + |data| > 64 then 64 - offset else |data|
      ensures if copy < 64 - offset then Absorbed(before + data)
              else (|before| + copy) % 64 == 0 && Registers() == Fold(before + data[..copy])
    {
      hide Fold, Compress;
      copy := if offset + |data| > 64 then 64 - offset else |data|;
      Fill(before, data, offset, copy);
      if copy == 64 - offset {
        FoldNext(before[..|before| - offset], buf[..]);
        assert before[..|before| - offset] + buf[..] == before + data[..copy];
        Process(buf[..]);
      }
    }

    // Completes an initial partial block as far as the data goes.
    method Fill(ghost before: seq<byte>, data: seq<byte>, offset: nat, copy: nat)
      requires Shaped() && Absorbed(before) && offset == |before| % 64 && 0 < offset
      requires copy <= |data| && offset + copy <= 64
      modifies buf
      ensures buf[..offset + copy] == before[|before| - offset..] + data[..copy]
      ensures copy == |data| && offset + copy < 64 ==> Absorbed(before + data)
    {
      hide Fold;
      forall i | 0 <= i < copy { buf[offset + i] := data[i]; }
      assert buf[..offset] == old(buf[..offset]);
      assert buf[offset..offset + copy] == data[..copy];
      ghost var m := before + data;
      if copy == |data| && offset + copy < 64 {
        assert |m| - (offset + copy) == |before| - offset;
        assert |m| % 64 == offset + copy;
        assert m[..|m| - (offset + copy)] == before[..|before| - offset];
        assert m[|m| - (offset + copy)..] == before[|before| - offset..] + data;
      }
    }

    // The full blocks of the data from position `start` on.
    method Blocks(ghost before: seq<byte>, data: seq<byte>, start: nat) returns (p: nat)
      requires Shaped() && start <= |data| && (|before| + start) % 64 == 0
      requires Registers() == Fold(before + data[..start])
      modifies abcd
      ensures p <= |data| < p + 64 && (|before| + p) % 64 == 0
      ensures Registers() == Fold(before + data[..p])
    {
      hide Fold, Compress;
      p := start;
      while |data| - p >= 64
        invariant p <= |data| && (|before| + p) % 64 == 0
        invariant Registers() == Fold(before + data[..p])
        decreases |data| - p
      {
        FoldNext(before + data[..p], data[p..p + 64]);
        assert before + data[..p] + data[p..p + 64] == before + data[..p + 64];
        Process(data[p..p + 64]);
        p := p + 64;
      }
    }

    // Keeps a final partial block.
    method Keep(ghost before: seq<byte>, data: seq<byte>, p: nat)
      requires Shaped() && p <= |data| < p + 64 && (|before| + p) % 64 == 0
      requires Registers() == Fold(before + data[..p])
      modifies buf
      ensures Absorbed(before + data)
    {
      hide Fold;
      forall i | 0 <= i < |data| - p { buf[i] := data[p + i]; }
      ghost var m := before + data;
      assert |m| % 64 == |data| - p;
      assert m[..|m| - (|data| - p)] == before + data[..p];
      assert m[|m| - (|data| - p)..] == data[p..];
    }

    method Finish() returns (digest: seq<byte>)
      requires Valid()
      modifies this, abcd, buf
      ensures digest == Digest(old(message))
    {
      hide Fold, Compress, Byte, CountBytes;
      SplitBits(|message|);
      var data := CountBytes(count0) + CountBytes(count1);
      Pad();
      assert data == Length(|old(message)|);
      Append(data);
      assert message == Padded(old(message));
      assert message[..|message|] == message;
      digest := Bytes(abcd[0]) + Bytes(abcd[1]) + Bytes(abcd[2]) + Bytes(abcd[3]);
    }

    // Pads to 56 bytes modulo 64.
    method Pad()
      requires Valid()
      modifies this, abcd, buf
      ensures Valid() && message == old(message) + Padding(|old(message)|)
    {
      hide Absorbed;
      OffsetIsTail(|message|);
      Append([0x80] + seq((55 - count0 / 8) % 64, _ => 0));
    }
  }

  // The low-order word counts bytes modulo 2^29, the high-order word multiples of that.
  lemma SplitBits(n: nat)
    ensures 8 * n % TWO_32 == 8 * (n % 0x2000_0000) && 8 * n / TWO_32 == n / 0x2000_0000
  {
    var q, a := n / 0x2000_0000, n % 0x2000_0000;
    assert n == 0x2000_0000 * q + a;
    assert 8 * n == TWO_32 * q + 8 * a;
  }

  lemma SplitSum(n: nat, k: nat)
    ensures var a := n % 0x2000_0000 + k % 0x2000_0000; var q := n / 0x2000_0000 + k / 0x2000_0000;
      if a < 0x2000_0000 then (n + k) % 0x2000_0000 == a && (n + k) / 0x2000_0000 == q
      else (n + k) % 0x2000_0000 == a - 0x2000_0000 && (n + k) / 0x2000_0000 == q + 1
  {
  }

  lemma OffsetIsTail(n: nat)
    ensures 8 * (n % 0x2000_0000) / 8 % 64 == n % 64
    ensures (55 - 8 * (n % 0x2000_0000) / 8) % 64 == (55 - n) % 64
  {
    var q, a := n / 0x2000_0000, n % 0x2000_0000;
    assert n == 64 * (0x80_0000 * q) + a;
    assert 8 * a / 8 == a;
    SameTail(a, 0x80_0000 * q);
  }

  lemma {:induction false} SameTail(a: nat, k: nat)
    ensures (64 * k + a) % 64 == a % 64 && (55 - (64 * k + a)) % 64 == (55 - a) % 64
  {
    if k > 0 {
      SameTail(a, k - 1);
      TailStep(64 * (k - 1) + a);
    }
  }

  lemma TailStep(n: nat)
    ensures (n + 64) % 64 == n % 64 && (55 - (n + 64)) % 64 == (55 - n) % 64
  {
  }

  lemma FoldNext(m: seq<byte>, block: seq<byte>)
    requires |m| % 64 == 0 && |block| == 64
    ensures |m + block| % 64 == 0 && Fold(m + block) == Compress(Fold(m), block)
  {
    hide Compress;
    assert (m + block)[..|m + block| - 64] == m;
    assert (m + block)[|m + block| - 64..] == block;
  }

  method HashString(s: seq<byte>) returns (hash: seq<byte>)
    ensures hash == Digest(s)
  {
    hide Digest, Fold;
    var state := new Md5State();
    assert [] + s == s;
    state.Append(s);
    hash := state.Finish();
  }

  function HexVal(n: bv8): char {
    "0123456789abcdef"[(n & 0xf) as int]
  }

  function Hex(m: seq<byte>): (hex: string) {
    if m == [] then "" else [HexVal(m[0] >> 4), HexVal(m[0])] + Hex(m[1..])
  }

  // How a reader takes two hexadecimal digits for a byte.
  function DigitValue(c: char): (n: nat)
    requires '0' <= c <= '9' || 'a' <= c <= 'f'
    ensures n < 16
  {
    if c <= '9' then c as int - '0' as int else 10 + c as int - 'a' as int
  }

  predicate IsHex(hex: string) {
    forall i :: 0 <= i < |hex| ==> '0' <= hex[i] <= '9' || 'a' <= hex[i] <= 'f'
  }

  function FromHex(hex: string): seq<byte>
    requires IsHex(hex)
  {
    if |hex| < 2 then []
    else [(16 * DigitValue(hex[0]) + DigitValue(hex[1])) as byte] + FromHex(hex[2..])
  }

  lemma DigitReadsBack(n: bv8)
    ensures IsHex([HexVal(n)]) && DigitValue(HexVal(n)) == (n & 0xf) as int
  {
  }

  lemma NibblesOf(b: byte)
    ensures 16 * ((b >> 4) & 0xf) as int + (b & 0xf) as int == b as int
  {
  }

  lemma PairReadsBack(b: byte)
    ensures IsHex([HexVal(b >> 4), HexVal(b)])
    ensures (16 * DigitValue(HexVal(b >> 4)) + DigitValue(HexVal(b))) as byte == b
  {
    DigitReadsBack(b >> 4);
    DigitReadsBack(b);
    NibblesOf(b);
    hide HexVal, DigitValue;
    assert IsHex([HexVal(b >> 4)]) && IsHex([HexVal(b)]);
    assert (b as int) as byte == b;
  }

  lemma FromHexCons(a: char, b: char, rest: string)
    requires IsHex([a, b]) && IsHex(rest)
    ensures IsHex([a, b] + rest)
    ensures IsHex([a]) && IsHex([b])
    ensures FromHex([a, b] + rest) == [(16 * DigitValue([a, b][0]) + DigitValue([a, b][1])) as byte] + FromHex(rest)
  {
    assert [a, b][0] == a && [a, b][1] == b && ([a, b] + rest)[2..] == rest;
    hide DigitValue;
  }

  lemma HexStep(m: seq<byte>)
    requires m != []
    ensures Hex(m) == [HexVal(m[0] >> 4), HexVal(m[0])] + Hex(m[1..])
  {
    hide HexVal;
  }

  /** Two digits for every byte, the high half first, are read back. */
  lemma {:induction false} HexReadsBack(m: seq<byte>)
    ensures |Hex(m)| == 2 * |m| && IsHex(Hex(m)) && FromHex(Hex(m)) == m
  {
    if m != [] {
      HexStep(m);
      hide HexVal, DigitValue, IsHex, FromHex, Hex;
      HexReadsBack(m[1..]);
      PairReadsBack(m[0]);
      FromHexCons(HexVal(m[0] >> 4), HexVal(m[0]), Hex(m[1..]));
    } else {
      assert Hex(m) == "";
    }
  }

  lemma {:induction false} HexInjective(m: seq<byte>, n: seq<byte>)
    requires Hex(m) == Hex(n)
    ensures m == n
  {
    if m != [] && n != [] {
      assert Hex(m)[..2] == [HexVal(m[0] >> 4), HexVal(m[0])] && Hex(m)[2..] == Hex(m[1..]);
      assert Hex(n)[..2] == [HexVal(n[0] >> 4), HexVal(n[0])] && Hex(n)[2..] == Hex(n[1..]);
      HexInjective(m[1..], n[1..]);
      HexValInjective(m[0], n[0]);
    }
  }

  lemma HexValInjective(a: byte, b: byte)
    requires HexVal(a >> 4) == HexVal(b >> 4) && HexVal(a) == HexVal(b)
    ensures a == b
  {
  }
}
