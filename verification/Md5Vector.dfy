/** One digest of the test suite of RFC 1321 (appendix A.5), step by step: it depends on every constant, shift
    and word index, on the four functions and on the layout of words, padding, length and digest. */
module Md5Vector {
  import opened Md5

  /** "abcdefghijklmnopqrstuvwxyz" */
  const ALPHABET: seq<Byte> := [
    0x61, 0x62, 0x63, 0x64, 0x65, 0x66, 0x67, 0x68, 0x69, 0x6a, 0x6b, 0x6c, 0x6d,
    0x6e, 0x6f, 0x70, 0x71, 0x72, 0x73, 0x74, 0x75, 0x76, 0x77, 0x78, 0x79, 0x7a]

  /** The words of its one block: 26 letters, the byte 0x80, and the length of 208 bits. */
  const X: seq<Word> := [
    0x64636261, 0x68676665, 0x6c6b6a69, 0x706f6e6d, 0x74737271, 0x78777675, 0x00807a79, 0x00000000,
    0x00000000, 0x00000000, 0x00000000, 0x00000000, 0x00000000, 0x00000000, 0x000000d0, 0x00000000]

  /** Step n, from the parts it is made of: the mixed word f, word k of the block, the shift s, the constant t,
      and the new word v. */
  lemma Next(n: nat, p: Regs, f: Word, k: nat, w: Word, s: nat, t: Word, v: Word) returns (r: Regs)
    requires n < 64 && k < 16 && s < 32 && Steps(X, Init(), n) == p
    requires Mix(n, p.b, p.c, p.d) == f && Index(n) == k && X[k] == w && Shift(n) == s && T(n) == t
    requires Set(f, p.a, p.b, w, s, t) == v
    ensures r == Regs(p.d, v, p.b, p.c) && Steps(X, Init(), n + 1) == r
  {
    hide Mix, Set, T, Index, Shift, Init;
    r := Regs(p.d, v, p.b, p.c);
    assert Step(X, p, n) == r;
  }

  lemma Steps4()
    ensures Steps(X, Init(), 4) == Regs(0xd6d117a6, 0x4503b812, 0x227d8cf1, 0xaab1aaaa)
  {
    hide Steps, Init;
    Steps0();
    var p := Regs(0x67452301, 0xefcdab89, 0x98badcfe, 0x10325476);
    p := Next(0, p, 0x98badcfe, 0, 0x64636261, 7, 0xd76aa478, 0xd6d117a6);
    p := Next(1, p, 0xceebcbd8, 1, 0x68676665, 12, 0xe8c7b756, 0xaab1aaaa);
    p := Next(2, p, 0xc7dd03a3, 2, 0x6c6b6a69, 17, 0x242070db, 0x227d8cf1);
    p := Next(3, p, 0xf6b19ba6, 3, 0x706f6e6d, 22, 0xc1bdceee, 0x4503b812);
  }

  lemma Steps8()
    ensures Steps(X, Init(), 8) == Regs(0xfe15f787, 0xda9bbb0d, 0xb71122fc, 0xa811b278)
  {
    hide Steps, Init;
    Steps4();
    var p := Regs(0xd6d117a6, 0x4503b812, 0x227d8cf1, 0xaab1aaaa);
    p := Next(4, p, 0xaab18ab8, 4, 0x74737271, 7, 0xf57c0faf, 0xfe15f787);
    p := Next(5, p, 0x4469b872, 5, 0x78777675, 12, 0x4787c62a, 0xa811b278);
    p := Next(6, p, 0xed13ba02, 6, 0x00807a79, 17, 0xa8304613, 0xb71122fc);
    p := Next(7, p, 0xe815f77b, 7, 0x00000000, 22, 0xfd469501, 0xda9bbb0d);
  }

  lemma Steps12()
    ensures Steps(X, Init(), 12) == Regs(0xae752899, 0x56cfa5cb, 0x7d4bd80b, 0x2bbe757f)
  {
    hide Steps, Init;
    Steps8();
    var p := Regs(0xfe15f787, 0xda9bbb0d, 0xb71122fc, 0xa811b278);
    p := Next(8, p, 0xb211227c, 8, 0x00000000, 7, 0x698098d8, 0xae752899);
    p := Next(9, p, 0x9b112a6d, 9, 0x00000000, 12, 0x8b44f7af, 0x2bbe757f);
    p := Next(10, p, 0xfa35aa19, 10, 0x00000000, 17, 0xffff5bb1, 0x7d4bd80b);
    p := Next(11, p, 0xab3e709b, 11, 0x00000000, 22, 0x895cd7be, 0x56cfa5cb);
  }

  lemma Steps16()
    ensures Steps(X, Init(), 16) == Regs(0x1754a316, 0x608d6b7e, 0x00df74d5, 0x85567d90)
  {
    hide Steps, Init;
    Steps12();
    var p := Regs(0xae752899, 0x56cfa5cb, 0x7d4bd80b, 0x2bbe757f);
    p := Next(12, p, 0x7d7bd03f, 12, 0x00000000, 7, 0x6b901122, 0x1754a316);
    p := Next(13, p, 0x7e4ff90b, 13, 0x00000000, 12, 0xfd987193, 0x85567d90);
    p := Next(14, p, 0x57dda15b, 14, 0x000000d0, 17, 0xa679438e, 0x00df74d5);
    p := Next(15, p, 0x1756f792, 15, 0x00000000, 22, 0x49b40821, 0x608d6b7e);
  }

  lemma Steps20()
    ensures Steps(X, Init(), 20) == Regs(0x2d8071cc, 0x4c2145b3, 0xedfe7e4b, 0x5dcee119)
  {
    hide Steps, Init;
    Steps16();
    var p := Regs(0x1754a316, 0x608d6b7e, 0x00df74d5, 0x85567d90);
    p := Next(16, p, 0x008d6955, 1, 0x68676665, 5, 0xf61e2562, 0x2d8071cc);
    p := Next(17, p, 0x60807bee, 6, 0x00807a79, 9, 0xc040b340, 0x5dcee119);
    p := Next(18, p, 0x4d8c7198, 11, 0x00000000, 14, 0x265e5a51, 0xedfe7e4b);
    p := Next(19, p, 0x7dcef059, 0, 0x64636261, 20, 0xe9b6c7aa, 0x4c2145b3);
  }

  lemma Steps24()
    ensures Steps(X, Init(), 24) == Regs(0x570c43e0, 0xc9f162d4, 0xc28ab49d, 0x977efd2a)
  {
    hide Steps, Init;
    Steps20();
    var p := Regs(0x2d8071cc, 0x4c2145b3, 0xedfe7e4b, 0x5dcee119);
    p := Next(20, p, 0xec305f53, 5, 0x78777675, 5, 0xd62f105d, 0x570c43e0);
    p := Next(21, p, 0x450d43f0, 10, 0x00000000, 9, 0x02441453, 0x977efd2a);
    p := Next(22, p, 0x172c4762, 15, 0x00000000, 14, 0xd8a1e681, 0xc28ab49d);
    p := Next(23, p, 0xc27abc8a, 4, 0x74737271, 20, 0xe7d3fbc8, 0xc9f162d4);
  }

  lemma Steps28()
    ensures Steps(X, Init(), 28) == Regs(0x25bfae3b, 0xe6d3b398, 0xf8c8365f, 0x89980104)
  {
    hide Steps, Init;
    Steps24();
    var p := Regs(0x570c43e0, 0xc9f162d4, 0xc28ab49d, 0x977efd2a);
    p := Next(24, p, 0xc1f06095, 9, 0x00000000, 5, 0x21e1cde6, 0x25bfae3b);
    p := Next(25, p, 0x09fbe659, 14, 0x000000d0, 9, 0xc33707d6, 0x89980104);
    p := Next(26, p, 0xad9e8c2f, 3, 0x706f6e6d, 14, 0xf4d50d87, 0xf8c8365f);
    p := Next(27, p, 0xa888271f, 8, 0x00000000, 20, 0x455a14ed, 0xe6d3b398);
  }

  lemma Steps32()
    ensures Steps(X, Init(), 32) == Regs(0xf54d8710, 0xaeb35766, 0x2e69afc7, 0x927b72e2)
  {
    hide Steps, Init;
    Steps28();
    var p := Regs(0x25bfae3b, 0xe6d3b398, 0xf8c8365f, 0x89980104);
    p := Next(28, p, 0xf0d0375b, 13, 0x00000000, 5, 0xa9e3e905, 0xf54d8710);
    p := Next(29, p, 0xf65b8790, 2, 0x6c6b6a69, 9, 0xfcefa3f8, 0x927b72e2);
    p := Next(30, p, 0x935f3680, 7, 0x00000000, 14, 0x676f02d9, 0x2e69afc7);
    p := Next(31, p, 0x267bf7e2, 12, 0x00000000, 20, 0x8d2a4c8a, 0xaeb35766);
  }

  lemma Steps36()
    ensures Steps(X, Init(), 36) == Regs(0xb4bf680e, 0x06a5e211, 0x2361ed0a, 0x4c8ffa80)
  {
    hide Steps, Init;
    Steps32();
    var p := Regs(0xf54d8710, 0xaeb35766, 0x2e69afc7, 0x927b72e2);
    p := Next(32, p, 0x12a18a43, 5, 0x78777675, 4, 0xfffa3942, 0xb4bf680e);
    p := Next(33, p, 0x346590af, 8, 0x00000000, 11, 0x8771f681, 0x4c8ffa80);
    p := Next(34, p, 0x5683c5e8, 11, 0x00000000, 16, 0x6d9d6122, 0x2361ed0a);
    p := Next(35, p, 0xdb517f84, 14, 0x000000d0, 23, 0xfde5380c, 0x06a5e211);
  }

  lemma Steps40()
    ensures Steps(X, Init(), 40) == Regs(0xb9c0c733, 0x8d41bf99, 0x23a9451b, 0xf1e6dc7a)
  {
    hide Steps, Init;
    Steps36();
    var p := Regs(0xb4bf680e, 0x06a5e211, 0x2361ed0a, 0x4c8ffa80);
    p := Next(36, p, 0x694bf59b, 1, 0x68676665, 4, 0xa4beea44, 0xb9c0c733);
    p := Next(37, p, 0x9c04c828, 4, 0x74737271, 11, 0x4bdecfa9, 0xf1e6dc7a);
    p := Next(38, p, 0x4e83f958, 7, 0x00000000, 16, 0xf6bb4b60, 0x23a9451b);
    p := Next(39, p, 0x6b8f5e52, 10, 0x00000000, 23, 0xbebfbc70, 0x8d41bf99);
  }

  lemma Steps44()
    ensures Steps(X, Init(), 44) == Regs(0xa3e88ead, 0x90a35af5, 0x66f6468d, 0x02c0b11c)
  {
    hide Steps, Init;
    Steps40();
    var p := Regs(0xb9c0c733, 0x8d41bf99, 0x23a9451b, 0xf1e6dc7a);
    p := Next(40, p, 0x5f0e26f8, 13, 0x00000000, 4, 0x289b7ec6, 0xa3e88ead);
    p := Next(41, p, 0x0d00742f, 0, 0x64636261, 11, 0xeaa127fa, 0x02c0b11c);
    p := Next(42, p, 0x2c698028, 3, 0x706f6e6d, 16, 0xd4ef3085, 0x66f6468d);
    p := Next(43, p, 0xc7de793c, 6, 0x00807a79, 23, 0x04881d05, 0x90a35af5);
  }

  lemma Steps48()
    ensures Steps(X, Init(), 48) == Regs(0xb5d41f9c, 0x71d10367, 0x703d54d8, 0xa04b4904)
  {
    hide Steps, Init;
    Steps44();
    var p := Regs(0xa3e88ead, 0x90a35af5, 0x66f6468d, 0x02c0b11c);
    p := Next(44, p, 0xf495ad64, 9, 0x00000000, 4, 0xd9d4d039, 0xb5d41f9c);
    p := Next(45, p, 0x438103e4, 12, 0x00000000, 11, 0xe6db99e5, 0xa04b4904);
    p := Next(46, p, 0x853c0c6d, 15, 0x00000000, 16, 0x1fa27cf8, 0x703d54d8);
    p := Next(47, p, 0x65a20240, 2, 0x6c6b6a69, 23, 0xc4ac5665, 0x71d10367);
  }

  lemma Steps52()
    ensures Steps(X, Init(), 52) == Regs(0xfc32dd6e, 0x33edb197, 0xb35602cb, 0x65456b34)
  {
    hide Steps, Init;
    Steps48();
    var p := Regs(0xb5d41f9c, 0x71d10367, 0x703d54d8, 0xa04b4904);
    p := Next(48, p, 0x0fc8e327, 0, 0x64636261, 6, 0xf4292244, 0xfc32dd6e);
    p := Next(49, p, 0x8e23fc08, 7, 0x00000000, 10, 0x432aff97, 0x65456b34);
    p := Next(50, p, 0x135d22d2, 14, 0x000000d0, 15, 0xab9423a7, 0xb35602cb);
    p := Next(51, p, 0xd69a49ef, 5, 0x78777675, 21, 0xfc93a039, 0x33edb197);
  }

  lemma Steps56()
    ensures Steps(X, Init(), 56) == Regs(0xc1e942f1, 0x83877d1b, 0x23a68048, 0xd9bb987c)
  {
    hide Steps, Init;
    Steps52();
    var p := Regs(0xfc32dd6e, 0x33edb197, 0xb35602cb, 0x65456b34);
    p := Next(52, p, 0x08a9b714, 12, 0x00000000, 6, 0x655b59c3, 0xc1e942f1);
    p := Next(53, p, 0xfe044e62, 3, 0x706f6e6d, 10, 0x8f0ccc92, 0xd9bb987c);
    p := Next(54, p, 0x1c529c8d, 10, 0x00000000, 15, 0xffeff47d, 0x23a68048);
    p := Next(55, p, 0xe60d2532, 1, 0x68676665, 21, 0x85845dd1, 0x83877d1b);
  }

  lemma Steps60()
    ensures Steps(X, Init(), 60) == Regs(0x0077c208, 0x5e6bc930, 0xa3e2247f, 0x847fc2e7)
  {
    hide Steps, Init;
    Steps56();
    var p := Regs(0xc1e942f1, 0x83877d1b, 0x23a68048, 0xd9bb987c);
    p := Next(56, p, 0x8461ffd3, 8, 0x00000000, 6, 0x6fa87e4f, 0x0077c208);
    p := Next(57, p, 0x5ff882a4, 15, 0x00000000, 10, 0xfe2ce6e0, 0x847fc2e7);
    p := Next(58, p, 0xfc0800ef, 6, 0x00807a79, 15, 0xa3014314, 0xa3e2247f);
    p := Next(59, p, 0x7b95ff18, 13, 0x00000000, 21, 0x4e0811a1, 0x5e6bc930);
  }

  lemma Steps64()
    ensures Steps(X, Init(), 64) == Regs(0x708ed9c2, 0x1116e6d8, 0xd38f1e7f, 0x2baf1354)
  {
    hide Steps, Init;
    Steps60();
    var p := Regs(0x0077c208, 0x5e6bc930, 0xa3e2247f, 0x847fc2e7);
    p := Next(60, p, 0xdc09d947, 4, 0x74737271, 6, 0xf7537e82, 0x708ed9c2);
    p := Next(61, p, 0x22f412f2, 11, 0x00000000, 10, 0xbd3af235, 0x2baf1354);
    p := Next(62, p, 0xdb31ee1d, 2, 0x6c6b6a69, 15, 0x2ad7d2bb, 0xd38f1e7f);
    p := Next(63, p, 0xf4502d2b, 9, 0x00000000, 21, 0xeb86d391, 0x1116e6d8);
  }

  lemma Steps0()
    ensures Steps(X, Init(), 0) == Regs(0x67452301, 0xefcdab89, 0x98badcfe, 0x10325476)
  {
  }

  lemma BlockIs()
    ensures |Padded(ALPHABET)| == 64 && Words(Padded(ALPHABET)) == X
  {
    PaddedBytes();
  }

  lemma LengthNumbers(i: nat)
    requires i < 8
    ensures 208 / Power256(i) % 256 == if i == 0 then 208 else 0
  {
    PowersOf256();
    hide Power256;
  }

  lemma LengthBytes(i: nat)
    requires i < 8
    ensures ByteOf(208, i) == if i == 0 then 0xd0 else 0
  {
    hide Power256;
    LengthNumbers(i);
    if i == 0 { assert ByteOf(208, i) == 208 as Byte; } else { assert ByteOf(208, i) == 0 as Byte; }
  }

  lemma Length()
    ensures Length64(26) == [0xd0, 0, 0, 0, 0, 0, 0, 0]
  {
    hide ByteOf;
    forall i | 0 <= i < 8 ensures Length64(26)[i] == if i == 0 then 0xd0 else 0 { LengthBytes(i); }
  }

  lemma PaddedBytes()
    ensures Padded(ALPHABET) == ALPHABET + [0x80] + Zeros(29) + [0xd0, 0, 0, 0, 0, 0, 0, 0]
  {
    Length();
    hide Length64;
  }

  /** The digest that the RFC gives. */
  lemma DigestOfAlphabet()
    ensures Digest(ALPHABET) == [
      0xc3, 0xfc, 0xd3, 0xd7, 0x61, 0x92, 0xe4, 0x00,
      0x7d, 0xfb, 0x49, 0x6c, 0xca, 0x67, 0xe1, 0x3b]
  {
    hide Steps, Words, Padded;
    BlockIs();
    Steps64();
    var p := Padded(ALPHABET);
    assert p[..0] == [] && p[0..] == p;
    assert Fold(Init(), p) == Block(Init(), p);
    assert Block(Init(), p) == Regs(0xd7d3fcc3, 0x00e49261, 0x6c49fb7d, 0x3be167ca);
  }
}
