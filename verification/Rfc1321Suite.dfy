/** The alphabet, a message of the test suite of RFC 1321, section A.5, operation by operation.
    It fixes the tables, the functions and the order of bytes and words of the specification. */
module Rfc1321Suite {
  import opened Rfc1321

  /** The registers, given in the order in which operation `i` names them. */
  function Turned(i: nat, a: Word, b: Word, c: Word, d: Word): State {
    match i % 4
    case 0 => State(a, b, c, d)
    case 1 => State(b, c, d, a)
    case 2 => State(c, d, a, b)
    case _ => State(d, a, b, c)
  }

  function MixBits(i: nat, x: bv32, y: bv32, z: bv32): bv32 {
    if i < 16 then FBits(x, y, z)
    else if i < 32 then GBits(x, y, z)
    else if i < 48 then HBits(x, y, z)
    else IBits(x, y, z)
  }

  lemma MixIs(i: nat, x: bv32, y: bv32, z: bv32)
    ensures Mix(i, Word(x), Word(y), Word(z)) == Word(MixBits(i, x, y, z))
  {
    hide FBits, GBits, HBits, IBits;
  }

  lemma ApplyIs(i: nat, x: Block, a: Word, b: Word, c: Word, d: Word)
    ensures Apply(i, Turned(i, a, b, c, d), x) == Turned(i, Operation(i, a, b, c, d, x), b, c, d)
  {
    hide Operation;
  }

  /** One operation on words given as numbers. */
  lemma Step(i: nat, s: State, x: Block, a: bv32, b: bv32, c: bv32, d: bv32, k: bv32, t: bv32, r: bv32)
    requires Rounds(i, s, x) == Turned(i, Word(a), Word(b), Word(c), Word(d))
    requires x[K(i)] == Word(k) && T(i) == Word(t)
    requires r == CombineBits(a, b, MixBits(i, b, c, d), k, t, S(i))
    ensures Rounds(i + 1, s, x) == Turned(i, Word(r), Word(b), Word(c), Word(d))
  {
    MixIs(i, b, c, d);
    ApplyIs(i, x, Word(a), Word(b), Word(c), Word(d));
    hide Mix, MixBits, K, T, S, Turned, Apply, CombineBits;
  }

  lemma NoRound(s: State, x: Block)
    ensures Rounds(0, s, x) == s
  {
  }

  // ---- The message ----

  /** "abcdefghijklmnopqrstuvwxyz" */
  const ALPHABET: seq<byte> :=
    [0x61, 0x62, 0x63, 0x64, 0x65, 0x66, 0x67, 0x68, 0x69, 0x6a, 0x6b, 0x6c, 0x6d,
     0x6e, 0x6f, 0x70, 0x71, 0x72, 0x73, 0x74, 0x75, 0x76, 0x77, 0x78, 0x79, 0x7a]

  function LetterWord(k: int): bv32 {
    match k
    case 0 => 0x64636261
    case 1 => 0x68676665
    case 2 => 0x6c6b6a69
    case 3 => 0x706f6e6d
    case 4 => 0x74737271
    case 5 => 0x78777675
    case 6 => 0x00807a79
    case 14 => 0x000000d0
    case _ => 0x00000000
  }

  /** The letters and their padding as words. */
  function Letters(): Block {
    seq(16, k requires 0 <= k < 16 => Word(LetterWord(k)))
  }

  // ---- The operations ----

  lemma Letters1()
    ensures Rounds(4, INIT, Letters()) == State(Word(0xd6d117a6), Word(0x4503b812), Word(0x227d8cf1), Word(0xaab1aaaa))
  {
    hide Rounds;
    NoRound(INIT, Letters());
    Step(0, INIT, Letters(), 0x67452301, 0xefcdab89, 0x98badcfe, 0x10325476, 0x64636261, 0xd76aa478, 0xd6d117a6);
    Step(1, INIT, Letters(), 0x10325476, 0xd6d117a6, 0xefcdab89, 0x98badcfe, 0x68676665, 0xe8c7b756, 0xaab1aaaa);
    Step(2, INIT, Letters(), 0x98badcfe, 0xaab1aaaa, 0xd6d117a6, 0xefcdab89, 0x6c6b6a69, 0x242070db, 0x227d8cf1);
    Step(3, INIT, Letters(), 0xefcdab89, 0x227d8cf1, 0xaab1aaaa, 0xd6d117a6, 0x706f6e6d, 0xc1bdceee, 0x4503b812);
  }

  lemma Letters2()
    ensures Rounds(8, INIT, Letters()) == State(Word(0xfe15f787), Word(0xda9bbb0d), Word(0xb71122fc), Word(0xa811b278))
  {
    hide Rounds;
    Letters1();
    Step(4, INIT, Letters(), 0xd6d117a6, 0x4503b812, 0x227d8cf1, 0xaab1aaaa, 0x74737271, 0xf57c0faf, 0xfe15f787);
    Step(5, INIT, Letters(), 0xaab1aaaa, 0xfe15f787, 0x4503b812, 0x227d8cf1, 0x78777675, 0x4787c62a, 0xa811b278);
    Step(6, INIT, Letters(), 0x227d8cf1, 0xa811b278, 0xfe15f787, 0x4503b812, 0x00807a79, 0xa8304613, 0xb71122fc);
    Step(7, INIT, Letters(), 0x4503b812, 0xb71122fc, 0xa811b278, 0xfe15f787, 0x00000000, 0xfd469501, 0xda9bbb0d);
  }

  lemma Letters3()
    ensures Rounds(12, INIT, Letters()) == State(Word(0xae752899), Word(0x56cfa5cb), Word(0x7d4bd80b), Word(0x2bbe757f))
  {
    hide Rounds;
    Letters2();
    Step(8, INIT, Letters(), 0xfe15f787, 0xda9bbb0d, 0xb71122fc, 0xa811b278, 0x00000000, 0x698098d8, 0xae752899);
    Step(9, INIT, Letters(), 0xa811b278, 0xae752899, 0xda9bbb0d, 0xb71122fc, 0x00000000, 0x8b44f7af, 0x2bbe757f);
    Step(10, INIT, Letters(), 0xb71122fc, 0x2bbe757f, 0xae752899, 0xda9bbb0d, 0x00000000, 0xffff5bb1, 0x7d4bd80b);
    Step(11, INIT, Letters(), 0xda9bbb0d, 0x7d4bd80b, 0x2bbe757f, 0xae752899, 0x00000000, 0x895cd7be, 0x56cfa5cb);
  }

  lemma Letters4()
    ensures Rounds(16, INIT, Letters()) == State(Word(0x1754a316), Word(0x608d6b7e), Word(0x00df74d5), Word(0x85567d90))
  {
    hide Rounds;
    Letters3();
    Step(12, INIT, Letters(), 0xae752899, 0x56cfa5cb, 0x7d4bd80b, 0x2bbe757f, 0x00000000, 0x6b901122, 0x1754a316);
    Step(13, INIT, Letters(), 0x2bbe757f, 0x1754a316, 0x56cfa5cb, 0x7d4bd80b, 0x00000000, 0xfd987193, 0x85567d90);
    Step(14, INIT, Letters(), 0x7d4bd80b, 0x85567d90, 0x1754a316, 0x56cfa5cb, 0x000000d0, 0xa679438e, 0x00df74d5);
    Step(15, INIT, Letters(), 0x56cfa5cb, 0x00df74d5, 0x85567d90, 0x1754a316, 0x00000000, 0x49b40821, 0x608d6b7e);
  }

  lemma Letters5()
    ensures Rounds(20, INIT, Letters()) == State(Word(0x2d8071cc), Word(0x4c2145b3), Word(0xedfe7e4b), Word(0x5dcee119))
  {
    hide Rounds;
    Letters4();
    Step(16, INIT, Letters(), 0x1754a316, 0x608d6b7e, 0x00df74d5, 0x85567d90, 0x68676665, 0xf61e2562, 0x2d8071cc);
    Step(17, INIT, Letters(), 0x85567d90, 0x2d8071cc, 0x608d6b7e, 0x00df74d5, 0x00807a79, 0xc040b340, 0x5dcee119);
    Step(18, INIT, Letters(), 0x00df74d5, 0x5dcee119, 0x2d8071cc, 0x608d6b7e, 0x00000000, 0x265e5a51, 0xedfe7e4b);
    Step(19, INIT, Letters(), 0x608d6b7e, 0xedfe7e4b, 0x5dcee119, 0x2d8071cc, 0x64636261, 0xe9b6c7aa, 0x4c2145b3);
  }

  lemma Letters6()
    ensures Rounds(24, INIT, Letters()) == State(Word(0x570c43e0), Word(0xc9f162d4), Word(0xc28ab49d), Word(0x977efd2a))
  {
    hide Rounds;
    Letters5();
    Step(20, INIT, Letters(), 0x2d8071cc, 0x4c2145b3, 0xedfe7e4b, 0x5dcee119, 0x78777675, 0xd62f105d, 0x570c43e0);
    Step(21, INIT, Letters(), 0x5dcee119, 0x570c43e0, 0x4c2145b3, 0xedfe7e4b, 0x00000000, 0x02441453, 0x977efd2a);
    Step(22, INIT, Letters(), 0xedfe7e4b, 0x977efd2a, 0x570c43e0, 0x4c2145b3, 0x00000000, 0xd8a1e681, 0xc28ab49d);
    Step(23, INIT, Letters(), 0x4c2145b3, 0xc28ab49d, 0x977efd2a, 0x570c43e0, 0x74737271, 0xe7d3fbc8, 0xc9f162d4);
  }

  lemma Letters7()
    ensures Rounds(28, INIT, Letters()) == State(Word(0x25bfae3b), Word(0xe6d3b398), Word(0xf8c8365f), Word(0x89980104))
  {
    hide Rounds;
    Letters6();
    Step(24, INIT, Letters(), 0x570c43e0, 0xc9f162d4, 0xc28ab49d, 0x977efd2a, 0x00000000, 0x21e1cde6, 0x25bfae3b);
    Step(25, INIT, Letters(), 0x977efd2a, 0x25bfae3b, 0xc9f162d4, 0xc28ab49d, 0x000000d0, 0xc33707d6, 0x89980104);
    Step(26, INIT, Letters(), 0xc28ab49d, 0x89980104, 0x25bfae3b, 0xc9f162d4, 0x706f6e6d, 0xf4d50d87, 0xf8c8365f);
    Step(27, INIT, Letters(), 0xc9f162d4, 0xf8c8365f, 0x89980104, 0x25bfae3b, 0x00000000, 0x455a14ed, 0xe6d3b398);
  }

  lemma Letters8()
    ensures Rounds(32, INIT, Letters()) == State(Word(0xf54d8710), Word(0xaeb35766), Word(0x2e69afc7), Word(0x927b72e2))
  {
    hide Rounds;
    Letters7();
    Step(28, INIT, Letters(), 0x25bfae3b, 0xe6d3b398, 0xf8c8365f, 0x89980104, 0x00000000, 0xa9e3e905, 0xf54d8710);
    Step(29, INIT, Letters(), 0x89980104, 0xf54d8710, 0xe6d3b398, 0xf8c8365f, 0x6c6b6a69, 0xfcefa3f8, 0x927b72e2);
    Step(30, INIT, Letters(), 0xf8c8365f, 0x927b72e2, 0xf54d8710, 0xe6d3b398, 0x00000000, 0x676f02d9, 0x2e69afc7);
    Step(31, INIT, Letters(), 0xe6d3b398, 0x2e69afc7, 0x927b72e2, 0xf54d8710, 0x00000000, 0x8d2a4c8a, 0xaeb35766);
  }

  lemma Letters9()
    ensures Rounds(36, INIT, Letters()) == State(Word(0xb4bf680e), Word(0x06a5e211), Word(0x2361ed0a), Word(0x4c8ffa80))
  {
    hide Rounds;
    Letters8();
    Step(32, INIT, Letters(), 0xf54d8710, 0xaeb35766, 0x2e69afc7, 0x927b72e2, 0x78777675, 0xfffa3942, 0xb4bf680e);
    Step(33, INIT, Letters(), 0x927b72e2, 0xb4bf680e, 0xaeb35766, 0x2e69afc7, 0x00000000, 0x8771f681, 0x4c8ffa80);
    Step(34, INIT, Letters(), 0x2e69afc7, 0x4c8ffa80, 0xb4bf680e, 0xaeb35766, 0x00000000, 0x6d9d6122, 0x2361ed0a);
    Step(35, INIT, Letters(), 0xaeb35766, 0x2361ed0a, 0x4c8ffa80, 0xb4bf680e, 0x000000d0, 0xfde5380c, 0x06a5e211);
  }

  lemma Letters10()
    ensures Rounds(40, INIT, Letters()) == State(Word(0xb9c0c733), Word(0x8d41bf99), Word(0x23a9451b), Word(0xf1e6dc7a))
  {
    hide Rounds;
    Letters9();
    Step(36, INIT, Letters(), 0xb4bf680e, 0x06a5e211, 0x2361ed0a, 0x4c8ffa80, 0x68676665, 0xa4beea44, 0xb9c0c733);
    Step(37, INIT, Letters(), 0x4c8ffa80, 0xb9c0c733, 0x06a5e211, 0x2361ed0a, 0x74737271, 0x4bdecfa9, 0xf1e6dc7a);
    Step(38, INIT, Letters(), 0x2361ed0a, 0xf1e6dc7a, 0xb9c0c733, 0x06a5e211, 0x00000000, 0xf6bb4b60, 0x23a9451b);
    Step(39, INIT, Letters(), 0x06a5e211, 0x23a9451b, 0xf1e6dc7a, 0xb9c0c733, 0x00000000, 0xbebfbc70, 0x8d41bf99);
  }

  lemma Letters11()
    ensures Rounds(44, INIT, Letters()) == State(Word(0xa3e88ead), Word(0x90a35af5), Word(0x66f6468d), Word(0x02c0b11c))
  {
    hide Rounds;
    Letters10();
    Step(40, INIT, Letters(), 0xb9c0c733, 0x8d41bf99, 0x23a9451b, 0xf1e6dc7a, 0x00000000, 0x289b7ec6, 0xa3e88ead);
    Step(41, INIT, Letters(), 0xf1e6dc7a, 0xa3e88ead, 0x8d41bf99, 0x23a9451b, 0x64636261, 0xeaa127fa, 0x02c0b11c);
    Step(42, INIT, Letters(), 0x23a9451b, 0x02c0b11c, 0xa3e88ead, 0x8d41bf99, 0x706f6e6d, 0xd4ef3085, 0x66f6468d);
    Step(43, INIT, Letters(), 0x8d41bf99, 0x66f6468d, 0x02c0b11c, 0xa3e88ead, 0x00807a79, 0x04881d05, 0x90a35af5);
  }

  lemma Letters12()
    ensures Rounds(48, INIT, Letters()) == State(Word(0xb5d41f9c), Word(0x71d10367), Word(0x703d54d8), Word(0xa04b4904))
  {
    hide Rounds;
    Letters11();
    Step(44, INIT, Letters(), 0xa3e88ead, 0x90a35af5, 0x66f6468d, 0x02c0b11c, 0x00000000, 0xd9d4d039, 0xb5d41f9c);
    Step(45, INIT, Letters(), 0x02c0b11c, 0xb5d41f9c, 0x90a35af5, 0x66f6468d, 0x00000000, 0xe6db99e5, 0xa04b4904);
    Step(46, INIT, Letters(), 0x66f6468d, 0xa04b4904, 0xb5d41f9c, 0x90a35af5, 0x00000000, 0x1fa27cf8, 0x703d54d8);
    Step(47, INIT, Letters(), 0x90a35af5, 0x703d54d8, 0xa04b4904, 0xb5d41f9c, 0x6c6b6a69, 0xc4ac5665, 0x71d10367);
  }

  lemma Letters13()
    ensures Rounds(52, INIT, Letters()) == State(Word(0xfc32dd6e), Word(0x33edb197), Word(0xb35602cb), Word(0x65456b34))
  {
    hide Rounds;
    Letters12();
    Step(48, INIT, Letters(), 0xb5d41f9c, 0x71d10367, 0x703d54d8, 0xa04b4904, 0x64636261, 0xf4292244, 0xfc32dd6e);
    Step(49, INIT, Letters(), 0xa04b4904, 0xfc32dd6e, 0x71d10367, 0x703d54d8, 0x00000000, 0x432aff97, 0x65456b34);
    Step(50, INIT, Letters(), 0x703d54d8, 0x65456b34, 0xfc32dd6e, 0x71d10367, 0x000000d0, 0xab9423a7, 0xb35602cb);
    Step(51, INIT, Letters(), 0x71d10367, 0xb35602cb, 0x65456b34, 0xfc32dd6e, 0x78777675, 0xfc93a039, 0x33edb197);
  }

  lemma Letters14()
    ensures Rounds(56, INIT, Letters()) == State(Word(0xc1e942f1), Word(0x83877d1b), Word(0x23a68048), Word(0xd9bb987c))
  {
    hide Rounds;
    Letters13();
    Step(52, INIT, Letters(), 0xfc32dd6e, 0x33edb197, 0xb35602cb, 0x65456b34, 0x00000000, 0x655b59c3, 0xc1e942f1);
    Step(53, INIT, Letters(), 0x65456b34, 0xc1e942f1, 0x33edb197, 0xb35602cb, 0x706f6e6d, 0x8f0ccc92, 0xd9bb987c);
    Step(54, INIT, Letters(), 0xb35602cb, 0xd9bb987c, 0xc1e942f1, 0x33edb197, 0x00000000, 0xffeff47d, 0x23a68048);
    Step(55, INIT, Letters(), 0x33edb197, 0x23a68048, 0xd9bb987c, 0xc1e942f1, 0x68676665, 0x85845dd1, 0x83877d1b);
  }

  lemma Letters15()
    ensures Rounds(60, INIT, Letters()) == State(Word(0x0077c208), Word(0x5e6bc930), Word(0xa3e2247f), Word(0x847fc2e7))
  {
    hide Rounds;
    Letters14();
    Step(56, INIT, Letters(), 0xc1e942f1, 0x83877d1b, 0x23a68048, 0xd9bb987c, 0x00000000, 0x6fa87e4f, 0x0077c208);
    Step(57, INIT, Letters(), 0xd9bb987c, 0x0077c208, 0x83877d1b, 0x23a68048, 0x00000000, 0xfe2ce6e0, 0x847fc2e7);
    Step(58, INIT, Letters(), 0x23a68048, 0x847fc2e7, 0x0077c208, 0x83877d1b, 0x00807a79, 0xa3014314, 0xa3e2247f);
    Step(59, INIT, Letters(), 0x83877d1b, 0xa3e2247f, 0x847fc2e7, 0x0077c208, 0x00000000, 0x4e0811a1, 0x5e6bc930);
  }

  lemma Letters16()
    ensures Rounds(64, INIT, Letters()) == State(Word(0x708ed9c2), Word(0x1116e6d8), Word(0xd38f1e7f), Word(0x2baf1354))
  {
    hide Rounds;
    Letters15();
    Step(60, INIT, Letters(), 0x0077c208, 0x5e6bc930, 0xa3e2247f, 0x847fc2e7, 0x74737271, 0xf7537e82, 0x708ed9c2);
    Step(61, INIT, Letters(), 0x847fc2e7, 0x708ed9c2, 0x5e6bc930, 0xa3e2247f, 0x00000000, 0xbd3af235, 0x2baf1354);
    Step(62, INIT, Letters(), 0xa3e2247f, 0x2baf1354, 0x708ed9c2, 0x5e6bc930, 0x6c6b6a69, 0x2ad7d2bb, 0xd38f1e7f);
    Step(63, INIT, Letters(), 0x5e6bc930, 0xd38f1e7f, 0x2baf1354, 0x708ed9c2, 0x00000000, 0xeb86d391, 0x1116e6d8);
  }

  lemma LettersCompressed()
    ensures Compress(INIT, Letters()) == State(Word(0xd7d3fcc3), Word(0x00e49261), Word(0x6c49fb7d), Word(0x3be167ca))
  {
    hide Rounds;
    Letters16();
  }

  // ---- The digest ----

  lemma LetterWords()
    ensures DecodeWord(0x61, 0x62, 0x63, 0x64) == Word(0x64636261)
    ensures DecodeWord(0x65, 0x66, 0x67, 0x68) == Word(0x68676665)
    ensures DecodeWord(0x69, 0x6a, 0x6b, 0x6c) == Word(0x6c6b6a69)
    ensures DecodeWord(0x6d, 0x6e, 0x6f, 0x70) == Word(0x706f6e6d)
    ensures DecodeWord(0x71, 0x72, 0x73, 0x74) == Word(0x74737271)
    ensures DecodeWord(0x75, 0x76, 0x77, 0x78) == Word(0x78777675)
  {
  }

  lemma FourLetters(k: int)
    requires 0 <= k < 6
    ensures WordAt(ALPHABET, k) == Word(LetterWord(k))
  {
    LetterWords();
    hide DecodeWord;
  }

  lemma LastLetters()
    ensures DecodeWord(0x79, 0x7a, 0x80, 0) == Word(LetterWord(6))
    ensures DecodeWord(0, 0, 0, 0) == Word(0x00000000)
    ensures DecodeWord(0xd0, 0, 0, 0) == Word(0x000000d0)
  {
  }

  lemma Counts()
    ensures ToWord(LengthLow(26)) == Word(0x000000d0) && ToWord(LengthHigh(26)) == Word(0x00000000)
  {
    assert LengthLow(26) == 208 && LengthHigh(26) == 0;
  }

  lemma CountBytes()
    ensures EncodeWord(Word(0x000000d0)) == [0xd0, 0, 0, 0] && EncodeWord(Word(0x00000000)) == [0, 0, 0, 0]
  {
  }

  lemma Padded(b: seq<byte>)
    requires b == ALPHABET + Padding(26)
    ensures |b| == 64 && forall i :: 0 <= i < 64 ==>
      b[i] == if i < 26 then ALPHABET[i] else if i == 26 then 0x80 else if i == 56 then 0xd0 else 0
  {
    Counts();
    CountBytes();
    hide ToWord, LengthLow, LengthHigh, EncodeWord;
    assert ZeroBytes(26) == 29;
  }

  lemma Decoded(b: seq<byte>)
    requires |b| == 64 && forall i :: 0 <= i < 64 ==>
      b[i] == if i < 26 then ALPHABET[i] else if i == 26 then 0x80 else if i == 56 then 0xd0 else 0
    ensures Decode(b) == Letters()
  {
    LastLetters();
    hide DecodeWord;
    forall k | 0 <= k < 16 ensures Decode(b)[k] == Letters()[k] {
      if k < 6 {
        FourLetters(k);
      }
    }
  }

  lemma OneBlock(b: seq<byte>)
    requires |b| == 64
    ensures Blocks(b) == Compress(INIT, Decode(b))
  {
    hide Compress, Decode;
    assert b[..0] == [] && b[0..] == b;
  }

  lemma Encoded()
    ensures Encode(State(Word(0xd7d3fcc3), Word(0x00e49261), Word(0x6c49fb7d), Word(0x3be167ca)))
         == [0xc3, 0xfc, 0xd3, 0xd7, 0x61, 0x92, 0xe4, 0x00, 0x7d, 0xfb, 0x49, 0x6c, 0xca, 0x67, 0xe1, 0x3b]
  {
  }

  /** The digest that RFC 1321 gives for the alphabet. */
  lemma AlphabetDigest()
    ensures Digest(ALPHABET)
         == [0xc3, 0xfc, 0xd3, 0xd7, 0x61, 0x92, 0xe4, 0x00, 0x7d, 0xfb, 0x49, 0x6c, 0xca, 0x67, 0xe1, 0x3b]
  {
    var b := ALPHABET + Padding(26);
    Padded(b);
    OneBlock(b);
    Decoded(b);
    LettersCompressed();
    Encoded();
    hide Blocks, Padding, Compress, Decode, Encode, Letters;
  }
}
