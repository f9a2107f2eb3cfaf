/** The streaming MD5 of the program, against RFC 1321: a buffered incremental algorithm and the
    whole-message definition. */
module Md5 {
  type Byte = bv8
  type Word = bv32

  datatype Regs = Regs(a: Word, b: Word, c: Word, d: Word)

  // ---------- RFC 1321, section 3.4: one block ----------

  function F(x: Word, y: Word, z: Word): Word { (x & y) | (!x & z) }
  function G(x: Word, y: Word, z: Word): Word { (x & z) | (y & !z) }
  function H(x: Word, y: Word, z: Word): Word { x ^ y ^ z }
  function I(x: Word, y: Word, z: Word): Word { y ^ (x | !z) }

  function RotateLeft(x: Word, n: nat): Word
    requires n <= 32
  {
    (x << n) | (x >> (32 - n))
  }

  /** The operation shared by all the steps: b + ((a + f + x + t) <<< s). */
  function Set(f: Word, a: Word, b: Word, x: Word, s: nat, t: Word): Word
    requires s <= 32
  {
    RotateLeft(a + f + x + t, s) + b
  }

  /** T[i] is the integer part of 4294967296 times abs(sin(i)), counted here from 0. */
  function T(i: nat): Word
    requires i < 64
  {
    if i < 32 then
      if i < 16 then
        if i < 8 then
          if i < 4 then
            if i == 0 then 0xd76aa478 else if i == 1 then 0xe8c7b756 else if i == 2 then 0x242070db else 0xc1bdceee
          else
            if i == 4 then 0xf57c0faf else if i == 5 then 0x4787c62a else if i == 6 then 0xa8304613 else 0xfd469501
        else
          if i < 12 then
            if i == 8 then 0x698098d8 else if i == 9 then 0x8b44f7af else if i == 10 then 0xffff5bb1 else 0x895cd7be
          else
            if i == 12 then 0x6b901122 else if i == 13 then 0xfd987193 else if i == 14 then 0xa679438e else 0x49b40821
      else
        if i < 24 then
          if i < 20 then
            if i == 16 then 0xf61e2562 else if i == 17 then 0xc040b340 else if i == 18 then 0x265e5a51 else 0xe9b6c7aa
          else
            if i == 20 then 0xd62f105d else if i == 21 then 0x02441453 else if i == 22 then 0xd8a1e681 else 0xe7d3fbc8
        else
          if i < 28 then
            if i == 24 then 0x21e1cde6 else if i == 25 then 0xc33707d6 else if i == 26 then 0xf4d50d87 else 0x455a14ed
          else
            if i == 28 then 0xa9e3e905 else if i == 29 then 0xfcefa3f8 else if i == 30 then 0x676f02d9 else 0x8d2a4c8a
    else
      if i < 48 then
        if i < 40 then
          if i < 36 then
            if i == 32 then 0xfffa3942 else if i == 33 then 0x8771f681 else if i == 34 then 0x6d9d6122 else 0xfde5380c
          else
            if i == 36 then 0xa4beea44 else if i == 37 then 0x4bdecfa9 else if i == 38 then 0xf6bb4b60 else 0xbebfbc70
        else
          if i < 44 then
            if i == 40 then 0x289b7ec6 else if i == 41 then 0xeaa127fa else if i == 42 then 0xd4ef3085 else 0x04881d05
          else
            if i == 44 then 0xd9d4d039 else if i == 45 then 0xe6db99e5 else if i == 46 then 0x1fa27cf8 else 0xc4ac5665
      else
        if i < 56 then
          if i < 52 then
            if i == 48 then 0xf4292244 else if i == 49 then 0x432aff97 else if i == 50 then 0xab9423a7 else 0xfc93a039
          else
            if i == 52 then 0x655b59c3 else if i == 53 then 0x8f0ccc92 else if i == 54 then 0xffeff47d else 0x85845dd1
        else
          if i < 60 then
            if i == 56 then 0x6fa87e4f else if i == 57 then 0xfe2ce6e0 else if i == 58 then 0xa3014314 else 0x4e0811a1
          else
            if i == 60 then 0xf7537e82 else if i == 61 then 0xbd3af235 else if i == 62 then 0x2ad7d2bb else 0xeb86d391
  }

  /** The shift amounts of the four rounds. */
  function Shift(i: nat): (s: nat)
    requires i < 64
    ensures s < 32
  {
    var j := i % 4;
    if i < 16 then (if j == 0 then 7 else if j == 1 then 12 else if j == 2 then 17 else 22)
    else if i < 32 then (if j == 0 then 5 else if j == 1 then 9 else if j == 2 then 14 else 20)
    else if i < 48 then (if j == 0 then 4 else if j == 1 then 11 else if j == 2 then 16 else 23)
    else (if j == 0 then 6 else if j == 1 then 10 else if j == 2 then 15 else 21)
  }

  function Mix(i: nat, b: Word, c: Word, d: Word): Word
    requires i < 64
  {
    if i < 16 then F(b, c, d) else if i < 32 then G(b, c, d) else if i < 48 then H(b, c, d) else I(b, c, d)
  }

  function Index(i: nat): (k: nat)
    requires i < 64
    ensures k < 16
  {
    if i < 16 then i else if i < 32 then (5 * i + 1) % 16 else if i < 48 then (3 * i + 5) % 16 else 7 * i % 16
  }

  /** Step i of the 64: the registers move round by one. */
  function Step(x: seq<Word>, q: Regs, i: nat): Regs
    requires |x| == 16 && i < 64
  {
    Regs(q.d, Set(Mix(i, q.b, q.c, q.d), q.a, q.b, x[Index(i)], Shift(i), T(i)), q.b, q.c)
  }

  function Steps(x: seq<Word>, q: Regs, n: nat): Regs
    requires |x| == 16 && n <= 64
  {
    if n == 0 then q else Step(x, Steps(x, q, n - 1), n - 1)
  }

  lemma OneStep(x: seq<Word>, q: Regs, n: nat, p: Regs, f: Word, k: nat, s: nat, t: Word)
    requires |x| == 16 && n < 64 && Steps(x, q, n) == p
    requires f == Mix(n, p.b, p.c, p.d) && k == Index(n) && s == Shift(n) && t == T(n)
    ensures Steps(x, q, n + 1) == Regs(p.d, Set(f, p.a, p.b, x[k], s, t), p.b, p.c)
  {
    hide Set, Mix, Index, Shift, T;
  }

  lemma Step1(x: seq<Word>, q: Regs, n: nat, a: Word, b: Word, c: Word, d: Word, k: nat, s: nat, t: Word)
    requires |x| == 16 && 0 <= n < 16 && Steps(x, q, n) == Regs(a, b, c, d)
    requires k == Index(n) && s == Shift(n) && t == T(n)
    ensures Steps(x, q, n + 1) == Regs(d, Set(F(b, c, d), a, b, x[k], s, t), b, c)
  {
    hide Set, F, G, H, I, Index, Shift, T;
    OneStep(x, q, n, Regs(a, b, c, d), F(b, c, d), k, s, t);
  }

  lemma Step2(x: seq<Word>, q: Regs, n: nat, a: Word, b: Word, c: Word, d: Word, k: nat, s: nat, t: Word)
    requires |x| == 16 && 16 <= n < 32 && Steps(x, q, n) == Regs(a, b, c, d)
    requires k == Index(n) && s == Shift(n) && t == T(n)
    ensures Steps(x, q, n + 1) == Regs(d, Set(G(b, c, d), a, b, x[k], s, t), b, c)
  {
    hide Set, F, G, H, I, Index, Shift, T;
    OneStep(x, q, n, Regs(a, b, c, d), G(b, c, d), k, s, t);
  }

  lemma Step3(x: seq<Word>, q: Regs, n: nat, a: Word, b: Word, c: Word, d: Word, k: nat, s: nat, t: Word)
    requires |x| == 16 && 32 <= n < 48 && Steps(x, q, n) == Regs(a, b, c, d)
    requires k == Index(n) && s == Shift(n) && t == T(n)
    ensures Steps(x, q, n + 1) == Regs(d, Set(H(b, c, d), a, b, x[k], s, t), b, c)
  {
    hide Set, F, G, H, I, Index, Shift, T;
    OneStep(x, q, n, Regs(a, b, c, d), H(b, c, d), k, s, t);
  }

  lemma Step4(x: seq<Word>, q: Regs, n: nat, a: Word, b: Word, c: Word, d: Word, k: nat, s: nat, t: Word)
    requires |x| == 16 && 48 <= n < 64 && Steps(x, q, n) == Regs(a, b, c, d)
    requires k == Index(n) && s == Shift(n) && t == T(n)
    ensures Steps(x, q, n + 1) == Regs(d, Set(I(b, c, d), a, b, x[k], s, t), b, c)
  {
    hide Set, F, G, H, I, Index, Shift, T;
    OneStep(x, q, n, Regs(a, b, c, d), I(b, c, d), k, s, t);
  }

  function Plus(p: Regs, q: Regs): Regs { Regs(p.a + q.a, p.b + q.b, p.c + q.c, p.d + q.d) }

  function LoadAt(b: seq<Byte>, j: nat): Word
    requires j + 4 <= |b|
  {
    (b[j] as Word) + ((b[j + 1] as Word) << 8) + ((b[j + 2] as Word) << 16) + ((b[j + 3] as Word) << 24)
  }

  /** Words are stored low-order byte first. */
  function Load(b: seq<Byte>, k: nat): Word
    requires |b| == 64 && k < 16
  {
    LoadAt(b, 4 * k)
  }

  function Words(b: seq<Byte>): (x: seq<Word>)
    requires |b| == 64
    ensures |x| == 16
  {
    seq(16, k requires 0 <= k < 16 => Load(b, k))
  }

  function Block(q: Regs, b: seq<Byte>): Regs
    requires |b| == 64
  {
    Plus(q, Steps(Words(b), q, 64))
  }

  /** The registers after all the blocks of a message. */
  function Fold(q: Regs, m: seq<Byte>): Regs
    requires |m| % 64 == 0
  {
    if m == [] then q else Block(Fold(q, m[..|m| - 64]), m[|m| - 64..])
  }

  // ---------- the program's unrolled rounds ----------

  const T_MASK: Word := 0xffffffff

  const T1: Word := T_MASK ^ 0x28955b87
  const T2: Word := T_MASK ^ 0x173848a9
  const T3: Word := 0x242070db
  const T4: Word := T_MASK ^ 0x3e423111
  const T5: Word := T_MASK ^ 0x0a83f050
  const T6: Word := 0x4787c62a
  const T7: Word := T_MASK ^ 0x57cfb9ec
  const T8: Word := T_MASK ^ 0x02b96afe
  const T9: Word := 0x698098d8
  const T10: Word := T_MASK ^ 0x74bb0850
  const T11: Word := T_MASK ^ 0x0000a44e
  const T12: Word := T_MASK ^ 0x76a32841
  const T13: Word := 0x6b901122
  const T14: Word := T_MASK ^ 0x02678e6c
  const T15: Word := T_MASK ^ 0x5986bc71
  const T16: Word := 0x49b40821
  const T17: Word := T_MASK ^ 0x09e1da9d
  const T18: Word := T_MASK ^ 0x3fbf4cbf
  const T19: Word := 0x265e5a51
  const T20: Word := T_MASK ^ 0x16493855
  const T21: Word := T_MASK ^ 0x29d0efa2
  const T22: Word := 0x02441453
  const T23: Word := T_MASK ^ 0x275e197e
  const T24: Word := T_MASK ^ 0x182c0437
  const T25: Word := 0x21e1cde6
  const T26: Word := T_MASK ^ 0x3cc8f829
  const T27: Word := T_MASK ^ 0x0b2af278
  const T28: Word := 0x455a14ed
  const T29: Word := T_MASK ^ 0x561c16fa
  const T30: Word := T_MASK ^ 0x03105c07
  const T31: Word := 0x676f02d9
  const T32: Word := T_MASK ^ 0x72d5b375
  const T33: Word := T_MASK ^ 0x0005c6bd
  const T34: Word := T_MASK ^ 0x788e097e
  const T35: Word := 0x6d9d6122
  const T36: Word := T_MASK ^ 0x021ac7f3
  const T37: Word := T_MASK ^ 0x5b4115bb
  const T38: Word := 0x4bdecfa9
  const T39: Word := T_MASK ^ 0x0944b49f
  const T40: Word := T_MASK ^ 0x4140438f
  const T41: Word := 0x289b7ec6
  const T42: Word := T_MASK ^ 0x155ed805
  const T43: Word := T_MASK ^ 0x2b10cf7a
  const T44: Word := 0x04881d05
  const T45: Word := T_MASK ^ 0x262b2fc6
  const T46: Word := T_MASK ^ 0x1924661a
  const T47: Word := 0x1fa27cf8
  const T48: Word := T_MASK ^ 0x3b53a99a
  const T49: Word := T_MASK ^ 0x0bd6ddbb
  const T50: Word := 0x432aff97
  const T51: Word := T_MASK ^ 0x546bdc58
  const T52: Word := T_MASK ^ 0x036c5fc6
  const T53: Word := 0x655b59c3
  const T54: Word := T_MASK ^ 0x70f3336d
  const T55: Word := T_MASK ^ 0x00100b82
  const T56: Word := T_MASK ^ 0x7a7ba22e
  const T57: Word := 0x6fa87e4f
  const T58: Word := T_MASK ^ 0x01d3191f
  const T59: Word := T_MASK ^ 0x5cfebceb
  const T60: Word := 0x4e0811a1
  const T61: Word := T_MASK ^ 0x08ac817d
  const T62: Word := T_MASK ^ 0x42c50dca
  const T63: Word := 0x2ad7d2bb
  const T64: Word := T_MASK ^ 0x14792c6e

  lemma Schedule1()
    ensures T1 == T(0) && T2 == T(1) && T3 == T(2) && T4 == T(3)
    ensures Index(0) == 0 && Shift(0) == 7 && Index(1) == 1 && Shift(1) == 12 && Index(2) == 2 && Shift(2) == 17 && Index(3) == 3 && Shift(3) == 22
    ensures T5 == T(4) && T6 == T(5) && T7 == T(6) && T8 == T(7)
    ensures Index(4) == 4 && Shift(4) == 7 && Index(5) == 5 && Shift(5) == 12 && Index(6) == 6 && Shift(6) == 17 && Index(7) == 7 && Shift(7) == 22
    ensures T9 == T(8) && T10 == T(9) && T11 == T(10) && T12 == T(11)
    ensures Index(8) == 8 && Shift(8) == 7 && Index(9) == 9 && Shift(9) == 12 && Index(10) == 10 && Shift(10) == 17 && Index(11) == 11 && Shift(11) == 22
    ensures T13 == T(12) && T14 == T(13) && T15 == T(14) && T16 == T(15)
    ensures Index(12) == 12 && Shift(12) == 7 && Index(13) == 13 && Shift(13) == 12 && Index(14) == 14 && Shift(14) == 17 && Index(15) == 15 && Shift(15) == 22
  {
  }

  lemma Schedule2()
    ensures T17 == T(16) && T18 == T(17) && T19 == T(18) && T20 == T(19)
    ensures Index(16) == 1 && Shift(16) == 5 && Index(17) == 6 && Shift(17) == 9 && Index(18) == 11 && Shift(18) == 14 && Index(19) == 0 && Shift(19) == 20
    ensures T21 == T(20) && T22 == T(21) && T23 == T(22) && T24 == T(23)
    ensures Index(20) == 5 && Shift(20) == 5 && Index(21) == 10 && Shift(21) == 9 && Index(22) == 15 && Shift(22) == 14 && Index(23) == 4 && Shift(23) == 20
    ensures T25 == T(24) && T26 == T(25) && T27 == T(26) && T28 == T(27)
    ensures Index(24) == 9 && Shift(24) == 5 && Index(25) == 14 && Shift(25) == 9 && Index(26) == 3 && Shift(26) == 14 && Index(27) == 8 && Shift(27) == 20
    ensures T29 == T(28) && T30 == T(29) && T31 == T(30) && T32 == T(31)
    ensures Index(28) == 13 && Shift(28) == 5 && Index(29) == 2 && Shift(29) == 9 && Index(30) == 7 && Shift(30) == 14 && Index(31) == 12 && Shift(31) == 20
  {
  }

  lemma Schedule3()
    ensures T33 == T(32) && T34 == T(33) && T35 == T(34) && T36 == T(35)
    ensures Index(32) == 5 && Shift(32) == 4 && Index(33) == 8 && Shift(33) == 11 && Index(34) == 11 && Shift(34) == 16 && Index(35) == 14 && Shift(35) == 23
    ensures T37 == T(36) && T38 == T(37) && T39 == T(38) && T40 == T(39)
    ensures Index(36) == 1 && Shift(36) == 4 && Index(37) == 4 && Shift(37) == 11 && Index(38) == 7 && Shift(38) == 16 && Index(39) == 10 && Shift(39) == 23
    ensures T41 == T(40) && T42 == T(41) && T43 == T(42) && T44 == T(43)
    ensures Index(40) == 13 && Shift(40) == 4 && Index(41) == 0 && Shift(41) == 11 && Index(42) == 3 && Shift(42) == 16 && Index(43) == 6 && Shift(43) == 23
    ensures T45 == T(44) && T46 == T(45) && T47 == T(46) && T48 == T(47)
    ensures Index(44) == 9 && Shift(44) == 4 && Index(45) == 12 && Shift(45) == 11 && Index(46) == 15 && Shift(46) == 16 && Index(47) == 2 && Shift(47) == 23
  {
  }

  lemma Schedule4()
    ensures T49 == T(48) && T50 == T(49) && T51 == T(50) && T52 == T(51)
    ensures Index(48) == 0 && Shift(48) == 6 && Index(49) == 7 && Shift(49) == 10 && Index(50) == 14 && Shift(50) == 15 && Index(51) == 5 && Shift(51) == 21
    ensures T53 == T(52) && T54 == T(53) && T55 == T(54) && T56 == T(55)
    ensures Index(52) == 12 && Shift(52) == 6 && Index(53) == 3 && Shift(53) == 10 && Index(54) == 10 && Shift(54) == 15 && Index(55) == 1 && Shift(55) == 21
    ensures T57 == T(56) && T58 == T(57) && T59 == T(58) && T60 == T(59)
    ensures Index(56) == 8 && Shift(56) == 6 && Index(57) == 15 && Shift(57) == 10 && Index(58) == 6 && Shift(58) == 15 && Index(59) == 13 && Shift(59) == 21
    ensures T61 == T(60) && T62 == T(61) && T63 == T(62) && T64 == T(63)
    ensures Index(60) == 4 && Shift(60) == 6 && Index(61) == 11 && Shift(61) == 10 && Index(62) == 2 && Shift(62) == 15 && Index(63) == 9 && Shift(63) == 21
  {
  }

  method Round1(x: seq<Word>, a0: Word, b0: Word, c0: Word, d0: Word, ghost q: Regs)
    returns (a: Word, b: Word, c: Word, d: Word)
    requires |x| == 16 && Regs(a0, b0, c0, d0) == Steps(x, q, 0)
    ensures Regs(a, b, c, d) == Steps(x, q, 16)
  {
    hide *;
    Schedule1();
    a, b, c, d := a0, b0, c0, d0;
    Step1(x, q, 0, a, b, c, d, 0, 7, T1);
    a := Set(F(b, c, d), a, b, x[0], 7, T1);
    Step1(x, q, 1, d, a, b, c, 1, 12, T2);
    d := Set(F(a, b, c), d, a, x[1], 12, T2);
    Step1(x, q, 2, c, d, a, b, 2, 17, T3);
    c := Set(F(d, a, b), c, d, x[2], 17, T3);
    Step1(x, q, 3, b, c, d, a, 3, 22, T4);
    b := Set(F(c, d, a), b, c, x[3], 22, T4);
    Step1(x, q, 4, a, b, c, d, 4, 7, T5);
    a := Set(F(b, c, d), a, b, x[4], 7, T5);
    Step1(x, q, 5, d, a, b, c, 5, 12, T6);
    d := Set(F(a, b, c), d, a, x[5], 12, T6);
    Step1(x, q, 6, c, d, a, b, 6, 17, T7);
    c := Set(F(d, a, b), c, d, x[6], 17, T7);
    Step1(x, q, 7, b, c, d, a, 7, 22, T8);
    b := Set(F(c, d, a), b, c, x[7], 22, T8);
    Step1(x, q, 8, a, b, c, d, 8, 7, T9);
    a := Set(F(b, c, d), a, b, x[8], 7, T9);
    Step1(x, q, 9, d, a, b, c, 9, 12, T10);
    d := Set(F(a, b, c), d, a, x[9], 12, T10);
    Step1(x, q, 10, c, d, a, b, 10, 17, T11);
    c := Set(F(d, a, b), c, d, x[10], 17, T11);
    Step1(x, q, 11, b, c, d, a, 11, 22, T12);
    b := Set(F(c, d, a), b, c, x[11], 22, T12);
    Step1(x, q, 12, a, b, c, d, 12, 7, T13);
    a := Set(F(b, c, d), a, b, x[12], 7, T13);
    Step1(x, q, 13, d, a, b, c, 13, 12, T14);
    d := Set(F(a, b, c), d, a, x[13], 12, T14);
    Step1(x, q, 14, c, d, a, b, 14, 17, T15);
    c := Set(F(d, a, b), c, d, x[14], 17, T15);
    Step1(x, q, 15, b, c, d, a, 15, 22, T16);
    b := Set(F(c, d, a), b, c, x[15], 22, T16);
  }

  method Round2(x: seq<Word>, a0: Word, b0: Word, c0: Word, d0: Word, ghost q: Regs)
    returns (a: Word, b: Word, c: Word, d: Word)
    requires |x| == 16 && Regs(a0, b0, c0, d0) == Steps(x, q, 16)
    ensures Regs(a, b, c, d) == Steps(x, q, 32)
  {
    hide *;
    Schedule2();
    a, b, c, d := a0, b0, c0, d0;
    Step2(x, q, 16, a, b, c, d, 1, 5, T17);
    a := Set(G(b, c, d), a, b, x[1], 5, T17);
    Step2(x, q, 17, d, a, b, c, 6, 9, T18);
    d := Set(G(a, b, c), d, a, x[6], 9, T18);
    Step2(x, q, 18, c, d, a, b, 11, 14, T19);
    c := Set(G(d, a, b), c, d, x[11], 14, T19);
    Step2(x, q, 19, b, c, d, a, 0, 20, T20);
    b := Set(G(c, d, a), b, c, x[0], 20, T20);
    Step2(x, q, 20, a, b, c, d, 5, 5, T21);
    a := Set(G(b, c, d), a, b, x[5], 5, T21);
    Step2(x, q, 21, d, a, b, c, 10, 9, T22);
    d := Set(G(a, b, c), d, a, x[10], 9, T22);
    Step2(x, q, 22, c, d, a, b, 15, 14, T23);
    c := Set(G(d, a, b), c, d, x[15], 14, T23);
    Step2(x, q, 23, b, c, d, a, 4, 20, T24);
    b := Set(G(c, d, a), b, c, x[4], 20, T24);
    Step2(x, q, 24, a, b, c, d, 9, 5, T25);
    a := Set(G(b, c, d), a, b, x[9], 5, T25);
    Step2(x, q, 25, d, a, b, c, 14, 9, T26);
    d := Set(G(a, b, c), d, a, x[14], 9, T26);
    Step2(x, q, 26, c, d, a, b, 3, 14, T27);
    c := Set(G(d, a, b), c, d, x[3], 14, T27);
    Step2(x, q, 27, b, c, d, a, 8, 20, T28);
    b := Set(G(c, d, a), b, c, x[8], 20, T28);
    Step2(x, q, 28, a, b, c, d, 13, 5, T29);
    a := Set(G(b, c, d), a, b, x[13], 5, T29);
    Step2(x, q, 29, d, a, b, c, 2, 9, T30);
    d := Set(G(a, b, c), d, a, x[2], 9, T30);
    Step2(x, q, 30, c, d, a, b, 7, 14, T31);
    c := Set(G(d, a, b), c, d, x[7], 14, T31);
    Step2(x, q, 31, b, c, d, a, 12, 20, T32);
    b := Set(G(c, d, a), b, c, x[12], 20, T32);
  }

  method Round3(x: seq<Word>, a0: Word, b0: Word, c0: Word, d0: Word, ghost q: Regs)
    returns (a: Word, b: Word, c: Word, d: Word)
    requires |x| == 16 && Regs(a0, b0, c0, d0) == Steps(x, q, 32)
    ensures Regs(a, b, c, d) == Steps(x, q, 48)
  {
    hide *;
    Schedule3();
    a, b, c, d := a0, b0, c0, d0;
    Step3(x, q, 32, a, b, c, d, 5, 4, T33);
    a := Set(H(b, c, d), a, b, x[5], 4, T33);
    Step3(x, q, 33, d, a, b, c, 8, 11, T34);
    d := Set(H(a, b, c), d, a, x[8], 11, T34);
    Step3(x, q, 34, c, d, a, b, 11, 16, T35);
    c := Set(H(d, a, b), c, d, x[11], 16, T35);
    Step3(x, q, 35, b, c, d, a, 14, 23, T36);
    b := Set(H(c, d, a), b, c, x[14], 23, T36);
    Step3(x, q, 36, a, b, c, d, 1, 4, T37);
    a := Set(H(b, c, d), a, b, x[1], 4, T37);
    Step3(x, q, 37, d, a, b, c, 4, 11, T38);
    d := Set(H(a, b, c), d, a, x[4], 11, T38);
    Step3(x, q, 38, c, d, a, b, 7, 16, T39);
    c := Set(H(d, a, b), c, d, x[7], 16, T39);
    Step3(x, q, 39, b, c, d, a, 10, 23, T40);
    b := Set(H(c, d, a), b, c, x[10], 23, T40);
    Step3(x, q, 40, a, b, c, d, 13, 4, T41);
    a := Set(H(b, c, d), a, b, x[13], 4, T41);
    Step3(x, q, 41, d, a, b, c, 0, 11, T42);
    d := Set(H(a, b, c), d, a, x[0], 11, T42);
    Step3(x, q, 42, c, d, a, b, 3, 16, T43);
    c := Set(H(d, a, b), c, d, x[3], 16, T43);
    Step3(x, q, 43, b, c, d, a, 6, 23, T44);
    b := Set(H(c, d, a), b, c, x[6], 23, T44);
    Step3(x, q, 44, a, b, c, d, 9, 4, T45);
    a := Set(H(b, c, d), a, b, x[9], 4, T45);
    Step3(x, q, 45, d, a, b, c, 12, 11, T46);
    d := Set(H(a, b, c), d, a, x[12], 11, T46);
    Step3(x, q, 46, c, d, a, b, 15, 16, T47);
    c := Set(H(d, a, b), c, d, x[15], 16, T47);
    Step3(x, q, 47, b, c, d, a, 2, 23, T48);
    b := Set(H(c, d, a), b, c, x[2], 23, T48);
  }

  method Round4(x: seq<Word>, a0: Word, b0: Word, c0: Word, d0: Word, ghost q: Regs)
    returns (a: Word, b: Word, c: Word, d: Word)
    requires |x| == 16 && Regs(a0, b0, c0, d0) == Steps(x, q, 48)
    ensures Regs(a, b, c, d) == Steps(x, q, 64)
  {
    hide *;
    Schedule4();
    a, b, c, d := a0, b0, c0, d0;
    Step4(x, q, 48, a, b, c, d, 0, 6, T49);
    a := Set(I(b, c, d), a, b, x[0], 6, T49);
    Step4(x, q, 49, d, a, b, c, 7, 10, T50);
    d := Set(I(a, b, c), d, a, x[7], 10, T50);
    Step4(x, q, 50, c, d, a, b, 14, 15, T51);
    c := Set(I(d, a, b), c, d, x[14], 15, T51);
    Step4(x, q, 51, b, c, d, a, 5, 21, T52);
    b := Set(I(c, d, a), b, c, x[5], 21, T52);
    Step4(x, q, 52, a, b, c, d, 12, 6, T53);
    a := Set(I(b, c, d), a, b, x[12], 6, T53);
    Step4(x, q, 53, d, a, b, c, 3, 10, T54);
    d := Set(I(a, b, c), d, a, x[3], 10, T54);
    Step4(x, q, 54, c, d, a, b, 10, 15, T55);
    c := Set(I(d, a, b), c, d, x[10], 15, T55);
    Step4(x, q, 55, b, c, d, a, 1, 21, T56);
    b := Set(I(c, d, a), b, c, x[1], 21, T56);
    Step4(x, q, 56, a, b, c, d, 8, 6, T57);
    a := Set(I(b, c, d), a, b, x[8], 6, T57);
    Step4(x, q, 57, d, a, b, c, 15, 10, T58);
    d := Set(I(a, b, c), d, a, x[15], 10, T58);
    Step4(x, q, 58, c, d, a, b, 6, 15, T59);
    c := Set(I(d, a, b), c, d, x[6], 15, T59);
    Step4(x, q, 59, b, c, d, a, 13, 21, T60);
    b := Set(I(c, d, a), b, c, x[13], 21, T60);
    Step4(x, q, 60, a, b, c, d, 4, 6, T61);
    a := Set(I(b, c, d), a, b, x[4], 6, T61);
    Step4(x, q, 61, d, a, b, c, 11, 10, T62);
    d := Set(I(a, b, c), d, a, x[11], 10, T62);
    Step4(x, q, 62, c, d, a, b, 2, 15, T63);
    c := Set(I(d, a, b), c, d, x[2], 15, T63);
    Step4(x, q, 63, b, c, d, a, 9, 21, T64);
    b := Set(I(c, d, a), b, c, x[9], 21, T64);
  }


  lemma NoSteps(x: seq<Word>, q: Regs)
    requires |x| == 16
    ensures Steps(x, q, 0) == q
  {
  }

  method Process(q: Regs, data: seq<Byte>) returns (r: Regs)
    requires |data| == 64
    ensures r == Block(q, data)
  {
    hide Steps, Words, F, G, H, I;
    var x := AssembleWords(data);
    NoSteps(x, q);
    var a, b, c, d := Round1(x, q.a, q.b, q.c, q.d, q);
    a, b, c, d := Round2(x, a, b, c, d, q);
    a, b, c, d := Round3(x, a, b, c, d, q);
    a, b, c, d := Round4(x, a, b, c, d, q);
    r := Plus(q, Regs(a, b, c, d));
  }

  method AssembleWords(data: seq<Byte>) returns (x: seq<Word>)
    requires |data| == 64
    ensures x == Words(data)
  {
    hide LoadAt;
    x := [];
    var xp := 0;
    for i := 0 to 16
      invariant xp == 4 * i && x == Words(data)[..i]
    {
      x := x + [LoadAt(data, xp)];
      xp := xp + 4;
    }
  }

  // ---------- RFC 1321, sections 3.1 to 3.5: a whole message ----------

  function Init(): Regs { Regs(0x67452301, 0xefcdab89, 0x98badcfe, 0x10325476) }

  /** As few zeros as bring a message of n bytes and the byte 0x80 to 56 modulo 64. */
  function ZeroCount(n: nat): (k: nat)
    ensures (n + 1 + k) % 64 == 56
    ensures k < 64
  {
    (119 - n % 64) % 64
  }

  /** Byte i of a number, low-order byte first. */
  function ByteOf(n: nat, i: nat): Byte { (n / Power256(i) % 256) as Byte }

  function Power256(i: nat): (r: nat)
    ensures r > 0
  {
    if i == 0 then 1 else 256 * Power256(i - 1)
  }

  function Length64(n: nat): (b: seq<Byte>)
    ensures |b| == 8
  {
    seq(8, i requires 0 <= i < 8 => ByteOf(8 * n % 0x1_0000_0000_0000_0000, i))
  }

  function Zeros(k: nat): (z: seq<Byte>)
    ensures |z| == k
  {
    seq(k, i => 0)
  }

  lemma PaddedLength(n: nat)
    requires n % 64 == 56
    ensures (n + 8) % 64 == 0
  {
  }

  /** Sections 3.1 and 3.2: the bit 1, zeros, and the length in bits. */
  function Padded(m: seq<Byte>): (p: seq<Byte>)
    ensures |p| % 64 == 0
  {
    var p := m + [0x80] + Zeros(ZeroCount(|m|)) + Length64(|m|);
    assert |p| == |m| + 1 + ZeroCount(|m|) + 8;
    PaddedLength(|m| + 1 + ZeroCount(|m|));
    p
  }

  /** Section 3.5: the registers, low-order byte first. */
  function Output(q: Regs): (b: seq<Byte>)
    ensures |b| == 16
  {
    Store(q.a) + Store(q.b) + Store(q.c) + Store(q.d)
  }

  function Store(w: Word): (b: seq<Byte>)
    ensures |b| == 4
  {
    [(w & 0xff) as Byte, ((w >> 8) & 0xff) as Byte, ((w >> 16) & 0xff) as Byte, (w >> 24) as Byte]
  }

  /** Storing and loading a word are inverse. */
  lemma LoadStore(w: Word)
    ensures LoadAt(Store(w), 0) == w
  {
  }

  function Digest(m: seq<Byte>): seq<Byte> { Output(Fold(Init(), Padded(m))) }

  // ---------- the arithmetic of the 64-bit count in two words ----------

  const WORD: int := 0x1_0000_0000

  /** The two words hold the length of the message in bits, modulo 2 to the 64. */
  ghost predicate Counts(c0: nat, c1: nat, n: nat) {
    c0 < WORD && c1 < WORD && c0 + WORD * c1 == 8 * n % (WORD * WORD)
  }

  /** What `md5_append` makes of the two words for len more bytes. */
  function Counted(c0: nat, c1: nat, len: nat): (r: (nat, nat)) {
    var nbits := 8 * len % WORD;
    var high := (c1 + len / 0x2000_0000) % WORD;
    var low := (c0 + nbits) % WORD;
    (low, if low < nbits then (high + 1) % WORD else high)
  }

  lemma CountedCounts(c0: nat, c1: nat, n: nat, len: nat)
    requires Counts(c0, c1, n)
    ensures var (d0, d1) := Counted(c0, c1, len); Counts(d0, d1, n + len)
  {
    var nbits, over := 8 * len % WORD, len / 0x2000_0000;
    assert 8 * len == WORD * over + nbits;
    var carry := if c0 + nbits >= WORD then 1 else 0;
    var low := c0 + nbits - WORD * carry;
    assert low == (c0 + nbits) % WORD && (low < nbits <==> carry == 1);
    var (d0, d1) := Counted(c0, c1, len);
    assert d0 == low;
    assert d1 == (c1 + over + carry) % WORD by { ModAdd(c1 + over, carry, WORD); }
    Recombine(c0, c1, n, len, nbits, over, carry);
  }

  lemma ModAdd(a: nat, b: nat, m: nat)
    requires m > 0
    ensures (a % m + b) % m == (a + b) % m
  {
    var q := a / m;
    assert a + b == m * q + (a % m + b);
    ModPlus(a % m + b, q, m);
  }

  lemma ModPlus(a: nat, q: nat, m: nat)
    requires m > 0
    ensures (m * q + a) % m == a % m
  {
    var r, k := a % m, a / m;
    assert m * q + a == m * (q + k) + r;
    DivUnique(m * q + a, q + k, r, m);
  }

  lemma MulBig(m: int, d: int)
    requires m > 0
    ensures d == 0 || m * d >= m || m * d <= -m
  {
    if d > 0 { assert m * (d - 1) >= 0; } else if d < 0 { assert m * (-d - 1) >= 0; }
  }

  lemma DivUnique(x: int, q: int, r: int, m: int)
    requires 0 <= r < m && x == m * q + r
    ensures x % m == r && x / m == q
  {
    MulBig(m, q - x / m);
    assert m * (q - x / m) == x % m - r;
  }

  lemma Recombine(c0: nat, c1: nat, n: nat, len: nat, nbits: nat, over: nat, carry: nat)
    requires Counts(c0, c1, n) && 8 * len == WORD * over + nbits && nbits < WORD
    requires carry == if c0 + nbits >= WORD then 1 else 0
    ensures c0 + nbits - WORD * carry + WORD * ((c1 + over + carry) % WORD) == 8 * (n + len) % (WORD * WORD)
  {
    var q := 8 * n / (WORD * WORD);
    var s := c1 + over + carry;
    var k, r := s / WORD, s % WORD;
    var low := c0 + nbits - WORD * carry;
    assert 8 * (n + len) == WORD * WORD * (q + k) + (low + WORD * r);
    DivUnique(8 * (n + len), q + k, low + WORD * r, WORD * WORD);
  }

  /** The low word alone gives the place in the block. */
  lemma OffsetIs(c0: nat, c1: nat, n: nat)
    requires Counts(c0, c1, n)
    ensures c0 / 8 % 64 == n % 64
  {
    var q := 8 * n / (WORD * WORD);
    assert 8 * n == c0 + WORD * c1 + WORD * WORD * q;
    assert n % 64 == (c0 / 8) % 64;
  }

  // ---------- the state ----------

  /** The full blocks of a message, and what is left over. */
  function Whole(m: seq<Byte>): (w: seq<Byte>)
    ensures |w| % 64 == 0
  {
    m[..|m| - |m| % 64]
  }

  function Rest(m: seq<Byte>): (r: seq<Byte>)
    ensures |r| == |m| % 64 && Whole(m) + r == m
  {
    m[|m| - |m| % 64..]
  }

  lemma FoldBlock(q: Regs, m: seq<Byte>, b: seq<Byte>)
    requires |m| % 64 == 0 && |b| == 64
    ensures Fold(q, m + b) == Block(Fold(q, m), b)
  {
    assert (m + b)[..|m + b| - 64] == m && (m + b)[|m + b| - 64..] == b;
  }

  function Pad(): (p: seq<Byte>)
    ensures |p| == 64
  {
    [0x80] + Zeros(63)
  }

  class State {
    var count0: nat
    var count1: nat
    var abcd: Regs
    const buf: array<Byte>

    /** The state after the bytes of m. */
    ghost predicate Absorbed(m: seq<Byte>)
      reads this, buf
    {
      && buf.Length == 64 && Counts(count0, count1, |m|)
      && abcd == Fold(Init(), Whole(m)) && buf[..|m| % 64] == Rest(m)
    }

    /** `md5_init` */
    constructor ()
      ensures Absorbed([]) && fresh(buf)
    {
      count0, count1, abcd, buf := 0, 0, Init(), new Byte[64];
    }

    method Copy(at: nat, data: seq<Byte>)
      requires at + |data| <= buf.Length
      modifies buf
      ensures buf[..] == old(buf[..])[..at] + data + old(buf[..])[at + |data|..]
    {
      for i := 0 to |data|
        invariant buf[..at] == old(buf[..at]) && buf[at..at + i] == data[..i]
        invariant buf[at + i..] == old(buf[at + i..])
      {
        buf[at + i] := data[i];
      }
    }

    method UpdateCount(nbytes: nat)
      modifies this`count0, this`count1
      ensures (count0, count1) == Counted(old(count0), old(count1), nbytes)
    {
      var nbits := 8 * nbytes % WORD;
      count1 := (count1 + nbytes / 0x2000_0000) % WORD;
      count0 := (count0 + nbits) % WORD;
      if count0 < nbits { count1 := (count1 + 1) % WORD; }
    }

    lemma Opened(m: seq<Byte>)
      requires Absorbed(m)
      ensures buf.Length == 64 && Counts(count0, count1, |m|) && count0 / 8 % 64 == |m| % 64
      ensures abcd == Fold(Init(), Whole(m)) && buf[..|m| % 64] == Rest(m)
    {
      hide Fold, Init;
      OffsetIs(count0, count1, |m|);
    }

    lemma Closed(m: seq<Byte>)
      requires buf.Length == 64 && Counts(count0, count1, |m|)
      requires abcd == Fold(Init(), Whole(m)) && buf[..|m| % 64] == Rest(m)
      ensures Absorbed(m)
    {
      hide Fold, Init;
    }

    /** Fills the block that is in the buffer; `done` when it is not yet full. */
    method FirstPart(ghost m: seq<Byte>, data: seq<Byte>, offset: nat) returns (copy: nat, done: bool)
      requires buf.Length == 64 && 0 < offset == |m| % 64 && |m| % 64 + |data| < 0x8000_0000
      requires abcd == Fold(Init(), Whole(m)) && buf[..|m| % 64] == Rest(m)
      modifies this`abcd, buf
      ensures done ==> abcd == Fold(Init(), Whole(m + data)) && buf[..|m + data| % 64] == Rest(m + data)
      ensures !done ==> copy <= |data| && (|m| + copy) % 64 == 0 && abcd == Fold(Init(), m + data[..copy])
    {
      hide *;
      var nbytes := |data|;
      copy := if offset + nbytes > 64 then 64 - offset else nbytes;
      Copy(offset, data[..copy]);
      done := offset + copy < 64;
      if done {
        Partial(m, data);
      } else {
        abcd := Process(abcd, buf[..]);
        Completed(Init(), m, data, copy, buf[..]);
      }
    }

    /** `md5_append`: the sizes are C ints. */
    method Append(ghost m: seq<Byte>, data: seq<Byte>)
      requires Absorbed(m) && |m| % 64 + |data| < 0x8000_0000
      modifies this`count0, this`count1, this`abcd, buf
      ensures Absorbed(m + data)
    {
      hide *;
      Opened(m);
      var p, left, nbytes := 0, |data|, |data|;
      var offset := count0 / 8 % 64;
      if nbytes <= 0 { assert m + data == m; return; }
      CountedCounts(count0, count1, |m|, nbytes);
      UpdateCount(nbytes);
      if offset != 0 {
        var copy, done := FirstPart(m, data, offset);
        if done { Closed(m + data); return; }
        p, left := p + copy, left - copy;
      } else {
        NothingLeft(m, data);
      }
      while left >= 64
        invariant 0 <= left && p + left == nbytes && (|m| + p) % 64 == 0 && |m + data[..p]| == |m| + p
        invariant abcd == Fold(Init(), m + data[..p])
        modifies this`abcd
      {
        abcd := Process(abcd, data[p..p + 64]);
        FullBlock(Init(), m, data, p);
        p, left := p + 64, left - 64;
      }
      LastPart(m, data, p);
      if left != 0 { Copy(0, data[p..]); }
      Closed(m + data);
    }

    /** `md5_finish`: afterwards the state has absorbed exactly the padded message. */
    method Finish(ghost m: seq<Byte>) returns (digest: seq<Byte>)
      requires Absorbed(m)
      modifies this`count0, this`count1, this`abcd, buf
      ensures Absorbed(Padded(m)) && digest == Digest(m)
    {
      hide *;
      Opened(m);
      var data: seq<Byte> := [];
      for i := 0 to 8
        invariant data == Length64(|m|)[..i]
        modifies {}
      {
        LengthByte(count0, count1, |m|, i);
        data := data + [ByteOf(if i / 4 == 0 then count0 else count1, i % 4)];
      }
      assert data == Length64(|m|);
      PadLengthIs(count0, count1, |m|);
      PadIs(ZeroCount(|m|));
      PaddedIs(m);
      var pad := Pad()[..PadLength(count0)];
      Append(m, pad);
      Append(m + pad, data);
      Opened(Padded(m));
      WholePadded(m);
      digest := [];
      for i := 0 to 16
        invariant digest == Output(abcd)[..i]
        modifies {}
      {
        OutputAt(abcd, i);
        digest := digest + [Store(RegAt(abcd, i / 4))[i % 4]];
      }
    }
  }

  // ---------- finishing ----------

  lemma PowersOf256()
    ensures Power256(0) == 1 && Power256(1) == 0x100 && Power256(2) == 0x1_0000 && Power256(3) == 0x100_0000
    ensures Power256(4) == WORD && Power256(5) == 0x100 * WORD && Power256(6) == 0x1_0000 * WORD && Power256(7) == 0x100_0000 * WORD
  {
    assert Power256(2) == 256 * Power256(1);
    assert Power256(4) == 256 * Power256(3);
    assert Power256(6) == 256 * Power256(5);
  }

  lemma HighByte(c0: nat, c1: nat, k: nat)
    requires c0 < WORD && k > 0
    ensures (c0 + WORD * c1) / (k * WORD) == c1 / k
  {
    var q, r := c1 / k, c1 % k;
    assert c0 + WORD * c1 == (k * WORD) * q + (WORD * r + c0);
    assert WORD * r <= WORD * (k - 1);
    DivUnique(c0 + WORD * c1, q, WORD * r + c0, k * WORD);
  }

  lemma LowByte(c0: nat, c1: nat, k: nat, j: nat)
    requires k > 0 && WORD == k * 256 * j
    ensures (c0 + WORD * c1) / k % 256 == c0 / k % 256
  {
    var t := 256 * j * c1;
    assert WORD * c1 == k * t;
    DivUnique(c0 + WORD * c1, c0 / k + t, c0 % k, k);
    assert t == 256 * (j * c1);
    ModPlus(c0 / k, j * c1, 256);
  }

  /** Each byte of the length sits in one of the two words. */
  lemma LengthByte(c0: nat, c1: nat, n: nat, i: nat)
    requires Counts(c0, c1, n) && i < 8
    ensures Length64(n)[i] == ByteOf(if i < 4 then c0 else c1, i % 4)
  {
    PowersOf256();
    if i == 0 { LowByte(c0, c1, 1, 0x100_0000); }
    else if i == 1 { LowByte(c0, c1, 0x100, 0x1_0000); }
    else if i == 2 { LowByte(c0, c1, 0x1_0000, 0x100); }
    else if i == 3 { LowByte(c0, c1, 0x100_0000, 1); }
    else if i == 4 { HighByte(c0, c1, 1); }
    else if i == 5 { HighByte(c0, c1, 0x100); }
    else if i == 6 { HighByte(c0, c1, 0x1_0000); }
    else { HighByte(c0, c1, 0x100_0000); }
  }

  /** The number of padding bytes, by unsigned arithmetic on the low word. */
  function PadLength(c0: nat): (k: nat)
    ensures 1 <= k <= 64
  {
    (55 - c0 / 8) % WORD % 64 + 1
  }

  lemma PadLengthIs(c0: nat, c1: nat, n: nat)
    requires Counts(c0, c1, n)
    ensures PadLength(c0) == ZeroCount(n) + 1
  {
    OffsetIs(c0, c1, n);
    var q := c0 / 8;
    var t, r := q / 64, q % 64;
    var e := if q <= 55 then 0 else 1;
    assert (55 - q) % WORD == 55 - q + WORD * e;
    if r <= 55 {
      DivUnique(55 - q + WORD * e, 0x400_0000 * e - t, 55 - r, 64);
      DivUnique(119 - r, 1, 55 - r, 64);
    } else {
      DivUnique(55 - q + WORD * e, 0x400_0000 * e - t - 1, 119 - r, 64);
    }
  }

  lemma PadIs(k: nat)
    requires k < 64
    ensures Pad()[..k + 1] == [0x80] + Zeros(k)
  {
  }

  function RegAt(q: Regs, j: nat): Word
    requires j < 4
  {
    if j == 0 then q.a else if j == 1 then q.b else if j == 2 then q.c else q.d
  }

  lemma OutputAt(q: Regs, i: nat)
    requires i < 16
    ensures Output(q)[i] == Store(RegAt(q, i / 4))[i % 4]
  {
  }

  lemma PaddedIs(m: seq<Byte>)
    ensures m + ([0x80] + Zeros(ZeroCount(|m|))) + Length64(|m|) == Padded(m)
  {
    hide Zeros, Length64, ZeroCount;
  }

  lemma WholePadded(m: seq<Byte>)
    ensures Whole(Padded(m)) == Padded(m) && Digest(m) == Output(Fold(Init(), Padded(m)))
  {
    hide Fold, Init, Output, Padded;
  }

  lemma NothingLeft(m: seq<Byte>, data: seq<Byte>)
    requires |m| % 64 == 0
    ensures Whole(m) == m + data[..0]
  {
  }

  /** Too little to fill the block. */
  lemma Partial(m: seq<Byte>, data: seq<Byte>)
    requires |m| % 64 + |data| < 64
    ensures Whole(m + data) == Whole(m) && Rest(m + data) == Rest(m) + data
  {
    var k, r := |m| / 64, |m| % 64;
    DivUnique(|m + data|, k, r + |data|, 64);
    assert |m + data| - |m + data| % 64 == |m| - r;
    assert (m + data)[..|m| - r] == m[..|m| - r] && (m + data)[|m| - r..] == m[|m| - r..] + data;
  }

  lemma Assoc(a: seq<Byte>, b: seq<Byte>, c: seq<Byte>)
    ensures a + b + c == a + (b + c)
  {
  }

  /** The block in the buffer is full. */
  lemma Completed(q: Regs, m: seq<Byte>, data: seq<Byte>, copy: nat, b: seq<Byte>)
    requires copy <= |data| && |m| % 64 + copy == 64 && b == Rest(m) + data[..copy]
    ensures (|m| + copy) % 64 == 0 && Block(Fold(q, Whole(m)), b) == Fold(q, m + data[..copy])
  {
    hide Fold, Block, Whole, Rest;
    Assoc(Whole(m), Rest(m), data[..copy]);
    FoldBlock(q, Whole(m), b);
  }

  lemma FullBlock(q: Regs, m: seq<Byte>, data: seq<Byte>, p: nat)
    requires p + 64 <= |data| && (|m| + p) % 64 == 0
    ensures (|m| + p + 64) % 64 == 0 && Fold(q, m + data[..p + 64]) == Block(Fold(q, m + data[..p]), data[p..p + 64])
  {
    hide Fold, Block;
    assert m + data[..p + 64] == m + data[..p] + data[p..p + 64];
    FoldBlock(q, m + data[..p], data[p..p + 64]);
  }

  lemma LastPart(m: seq<Byte>, data: seq<Byte>, p: nat)
    requires p <= |data| && (|m| + p) % 64 == 0 && |data| - p < 64
    ensures Whole(m + data) == m + data[..p] && Rest(m + data) == data[p..]
  {
    assert |m + data| % 64 == |data| - p;
  }

  function Join(chunks: seq<seq<Byte>>): seq<Byte> {
    if chunks == [] then [] else Join(chunks[..|chunks| - 1]) + chunks[|chunks| - 1]
  }

  /** However a message is cut into pieces, the pieces give the digest of the message. */
  method DigestOf(chunks: seq<seq<Byte>>) returns (digest: seq<Byte>)
    requires forall c | c in chunks :: |c| < 0x8000_0000 - 64
    ensures digest == Digest(Join(chunks))
  {
    hide Digest, State.Absorbed;
    var state := new State();
    for i := 0 to |chunks|
      invariant fresh(state) && fresh(state.buf) && state.Absorbed(Join(chunks[..i]))
    {
      assert chunks[..i + 1][..i] == chunks[..i];
      state.Append(Join(chunks[..i]), chunks[i]);
    }
    assert chunks[..|chunks|] == chunks;
    digest := state.Finish(Join(chunks));
  }
}
