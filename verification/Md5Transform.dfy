/** `MD5Transform`: the 64 unrolled steps of md5.c against section 3.4 of RFC 1321. */
module Md5Transform {
  import opened Rfc1321

  function F1Bits(x: bv32, y: bv32, z: bv32): bv32 { z ^ (x & (y ^ z)) }

  function F1(x: Word, y: Word, z: Word): Word { Word(F1Bits(x.bits, y.bits, z.bits)) }
  function F2(x: Word, y: Word, z: Word): Word { F1(z, x, y) }
  function F3(x: Word, y: Word, z: Word): Word { Word(F3Bits(x.bits, y.bits, z.bits)) }
  function F4(x: Word, y: Word, z: Word): Word { Word(F4Bits(x.bits, y.bits, z.bits)) }

  function F3Bits(x: bv32, y: bv32, z: bv32): bv32 { x ^ y ^ z }
  function F4Bits(x: bv32, y: bv32, z: bv32): bv32 { y ^ (x | !z) }

  /** The macro MD5STEP, once f(x, y, z) is known; its argument `data` is `in[k]+t`. */
  function Step(f: Word, w: Word, x: Word, k: Word, t: Word, s: nat): Word
    requires s <= 32
  {
    Word(StepBits(f.bits, w.bits, x.bits, k.bits, t.bits, s))
  }

  function StepBits(f: bv32, w: bv32, x: bv32, k: bv32, t: bv32, s: nat): bv32
    requires s <= 32
  {
    RotateLeft(w + (f + k + t), s) + x
  }

  lemma SumIs(w: bv32, f: bv32, k: bv32, t: bv32)
    ensures w + (f + k + t) == w + f + k + t
  {
  }

  lemma StepBitsIs(f: bv32, w: bv32, x: bv32, k: bv32, t: bv32, s: nat)
    requires s <= 32
    ensures StepBits(f, w, x, k, t, s) == CombineBits(w, x, f, k, t, s)
  {
    hide RotateLeft;
    SumIs(w, f, k, t);
  }

  lemma ChooseFirst(x: bv32, y: bv32, z: bv32)
    ensures z ^ (x & (y ^ z)) == (x & y) | (!x & z)
  {
  }

  lemma ChooseLast(x: bv32, y: bv32, z: bv32)
    ensures y ^ (z & (x ^ y)) == (x & z) | (y & !z)
  {
  }

  lemma F1BitsIsF(x: bv32, y: bv32, z: bv32)
    ensures F1Bits(x, y, z) == FBits(x, y, z)
  {
    ChooseFirst(x, y, z);
  }

  lemma F1BitsIsG(x: bv32, y: bv32, z: bv32)
    ensures F1Bits(z, x, y) == GBits(x, y, z)
  {
    ChooseLast(x, y, z);
  }

  lemma F1IsF(x: Word, y: Word, z: Word)
    ensures F1(x, y, z) == F(x, y, z)
  {
    hide F1Bits, FBits;
    F1BitsIsF(x.bits, y.bits, z.bits);
  }

  lemma F2IsG(x: Word, y: Word, z: Word)
    ensures F2(x, y, z) == G(x, y, z)
  {
    hide F1Bits, GBits;
    F1BitsIsG(x.bits, y.bits, z.bits);
  }

  lemma F3BitsIsH(x: bv32, y: bv32, z: bv32)
    ensures F3Bits(x, y, z) == HBits(x, y, z)
  {
  }

  lemma F4BitsIsI(x: bv32, y: bv32, z: bv32)
    ensures F4Bits(x, y, z) == IBits(x, y, z)
  {
  }

  lemma StepIsCombine(f: Word, w: Word, x: Word, k: Word, t: Word, s: nat)
    requires s <= 32
    ensures Step(f, w, x, k, t, s) == Combine(w, x, f, k, t, s)
  {
    hide StepBits, CombineBits;
    StepBitsIs(f.bits, w.bits, x.bits, k.bits, t.bits, s);
  }

  /** The selection function the code uses for operation i. */
  function Select(i: nat, x: Word, y: Word, z: Word): Word {
    if i < 16 then F1(x, y, z) else if i < 32 then F2(x, y, z) else if i < 48 then F3(x, y, z) else F4(x, y, z)
  }

  lemma SelectIsMix(i: nat, x: Word, y: Word, z: Word)
    ensures Select(i, x, y, z) == Mix(i, x, y, z)
  {
    F1IsF(x, y, z);
    F2IsG(x, y, z);
    F3BitsIsH(x.bits, y.bits, z.bits);
    F4BitsIsI(x.bits, y.bits, z.bits);
    hide F1, F2, F, G, F3Bits, F4Bits, HBits, IBits;
  }

  lemma StepIsOperation(i: nat, w: Word, x: Word, y: Word, z: Word, input: Block)
    ensures Step(Select(i, x, y, z), w, x, input[K(i)], T(i), S(i)) == Operation(i, w, x, y, z, input)
  {
    hide Step, Combine, Select, Mix, T, K, S;
    SelectIsMix(i, x, y, z);
    StepIsCombine(Mix(i, x, y, z), w, x, input[K(i)], T(i), S(i));
  }

  /** Operation i on the registers a, b, c, d, in the terms of the code. */
  function CodeStep(i: nat, a: Word, b: Word, c: Word, d: Word, k: Word, t: Word, s: nat): State
    requires s <= 32
  {
    match i % 4
    case 0 => State(Step(Select(i, b, c, d), a, b, k, t, s), b, c, d)
    case 1 => State(a, b, c, Step(Select(i, a, b, c), d, a, k, t, s))
    case 2 => State(a, b, Step(Select(i, d, a, b), c, d, k, t, s), d)
    case _ => State(a, Step(Select(i, c, d, a), b, c, k, t, s), c, d)
  }

  lemma Next(i: nat, init: State, input: Block, a: Word, b: Word, c: Word, d: Word, k: nat, t: bv32, s: nat)
    requires State(a, b, c, d) == Rounds(i, init, input)
    requires k == K(i) && Word(t) == T(i) && s == S(i)
    ensures Rounds(i + 1, init, input) == CodeStep(i, a, b, c, d, input[k], Word(t), s)
  {
    hide Operation, Step, Select, T, K, S;
    match i % 4
    case 0 => StepIsOperation(i, a, b, c, d, input);
    case 1 => StepIsOperation(i, d, a, b, c, input);
    case 2 => StepIsOperation(i, c, d, a, b, input);
    case _ => StepIsOperation(i, b, c, d, a, input);
  }

  /** Round 1 of MD5Transform. */
  method Round1(ghost init: State, input: Block, a0: Word, b0: Word, c0: Word, d0: Word)
    returns (a: Word, b: Word, c: Word, d: Word)
    requires State(a0, b0, c0, d0) == Rounds(0, init, input)
    ensures State(a, b, c, d) == Rounds(16, init, input)
  {
    hide Step, F1, F2, F3, F4, Rounds;
    a, b, c, d := a0, b0, c0, d0;
    Next(0, init, input, a, b, c, d, 0, 0xd76aa478, 7);
    a := Step(F1(b, c, d), a, b, input[0], Word(0xd76aa478), 7);
    Next(1, init, input, a, b, c, d, 1, 0xe8c7b756, 12);
    d := Step(F1(a, b, c), d, a, input[1], Word(0xe8c7b756), 12);
    Next(2, init, input, a, b, c, d, 2, 0x242070db, 17);
    c := Step(F1(d, a, b), c, d, input[2], Word(0x242070db), 17);
    Next(3, init, input, a, b, c, d, 3, 0xc1bdceee, 22);
    b := Step(F1(c, d, a), b, c, input[3], Word(0xc1bdceee), 22);
    Next(4, init, input, a, b, c, d, 4, 0xf57c0faf, 7);
    a := Step(F1(b, c, d), a, b, input[4], Word(0xf57c0faf), 7);
    Next(5, init, input, a, b, c, d, 5, 0x4787c62a, 12);
    d := Step(F1(a, b, c), d, a, input[5], Word(0x4787c62a), 12);
    Next(6, init, input, a, b, c, d, 6, 0xa8304613, 17);
    c := Step(F1(d, a, b), c, d, input[6], Word(0xa8304613), 17);
    Next(7, init, input, a, b, c, d, 7, 0xfd469501, 22);
    b := Step(F1(c, d, a), b, c, input[7], Word(0xfd469501), 22);
    Next(8, init, input, a, b, c, d, 8, 0x698098d8, 7);
    a := Step(F1(b, c, d), a, b, input[8], Word(0x698098d8), 7);
    Next(9, init, input, a, b, c, d, 9, 0x8b44f7af, 12);
    d := Step(F1(a, b, c), d, a, input[9], Word(0x8b44f7af), 12);
    Next(10, init, input, a, b, c, d, 10, 0xffff5bb1, 17);
    c := Step(F1(d, a, b), c, d, input[10], Word(0xffff5bb1), 17);
    Next(11, init, input, a, b, c, d, 11, 0x895cd7be, 22);
    b := Step(F1(c, d, a), b, c, input[11], Word(0x895cd7be), 22);
    Next(12, init, input, a, b, c, d, 12, 0x6b901122, 7);
    a := Step(F1(b, c, d), a, b, input[12], Word(0x6b901122), 7);
    Next(13, init, input, a, b, c, d, 13, 0xfd987193, 12);
    d := Step(F1(a, b, c), d, a, input[13], Word(0xfd987193), 12);
    Next(14, init, input, a, b, c, d, 14, 0xa679438e, 17);
    c := Step(F1(d, a, b), c, d, input[14], Word(0xa679438e), 17);
    Next(15, init, input, a, b, c, d, 15, 0x49b40821, 22);
    b := Step(F1(c, d, a), b, c, input[15], Word(0x49b40821), 22);
  }

  /** Round 2 of MD5Transform. */
  method Round2(ghost init: State, input: Block, a0: Word, b0: Word, c0: Word, d0: Word)
    returns (a: Word, b: Word, c: Word, d: Word)
    requires State(a0, b0, c0, d0) == Rounds(16, init, input)
    ensures State(a, b, c, d) == Rounds(32, init, input)
  {
    hide Step, F1, F2, F3, F4, Rounds;
    a, b, c, d := a0, b0, c0, d0;
    Next(16, init, input, a, b, c, d, 1, 0xf61e2562, 5);
    a := Step(F2(b, c, d), a, b, input[1], Word(0xf61e2562), 5);
    Next(17, init, input, a, b, c, d, 6, 0xc040b340, 9);
    d := Step(F2(a, b, c), d, a, input[6], Word(0xc040b340), 9);
    Next(18, init, input, a, b, c, d, 11, 0x265e5a51, 14);
    c := Step(F2(d, a, b), c, d, input[11], Word(0x265e5a51), 14);
    Next(19, init, input, a, b, c, d, 0, 0xe9b6c7aa, 20);
    b := Step(F2(c, d, a), b, c, input[0], Word(0xe9b6c7aa), 20);
    Next(20, init, input, a, b, c, d, 5, 0xd62f105d, 5);
    a := Step(F2(b, c, d), a, b, input[5], Word(0xd62f105d), 5);
    Next(21, init, input, a, b, c, d, 10, 0x02441453, 9);
    d := Step(F2(a, b, c), d, a, input[10], Word(0x02441453), 9);
    Next(22, init, input, a, b, c, d, 15, 0xd8a1e681, 14);
    c := Step(F2(d, a, b), c, d, input[15], Word(0xd8a1e681), 14);
    Next(23, init, input, a, b, c, d, 4, 0xe7d3fbc8, 20);
    b := Step(F2(c, d, a), b, c, input[4], Word(0xe7d3fbc8), 20);
    Next(24, init, input, a, b, c, d, 9, 0x21e1cde6, 5);
    a := Step(F2(b, c, d), a, b, input[9], Word(0x21e1cde6), 5);
    Next(25, init, input, a, b, c, d, 14, 0xc33707d6, 9);
    d := Step(F2(a, b, c), d, a, input[14], Word(0xc33707d6), 9);
    Next(26, init, input, a, b, c, d, 3, 0xf4d50d87, 14);
    c := Step(F2(d, a, b), c, d, input[3], Word(0xf4d50d87), 14);
    Next(27, init, input, a, b, c, d, 8, 0x455a14ed, 20);
    b := Step(F2(c, d, a), b, c, input[8], Word(0x455a14ed), 20);
    Next(28, init, input, a, b, c, d, 13, 0xa9e3e905, 5);
    a := Step(F2(b, c, d), a, b, input[13], Word(0xa9e3e905), 5);
    Next(29, init, input, a, b, c, d, 2, 0xfcefa3f8, 9);
    d := Step(F2(a, b, c), d, a, input[2], Word(0xfcefa3f8), 9);
    Next(30, init, input, a, b, c, d, 7, 0x676f02d9, 14);
    c := Step(F2(d, a, b), c, d, input[7], Word(0x676f02d9), 14);
    Next(31, init, input, a, b, c, d, 12, 0x8d2a4c8a, 20);
    b := Step(F2(c, d, a), b, c, input[12], Word(0x8d2a4c8a), 20);
  }

  /** Round 3 of MD5Transform. */
  method Round3(ghost init: State, input: Block, a0: Word, b0: Word, c0: Word, d0: Word)
    returns (a: Word, b: Word, c: Word, d: Word)
    requires State(a0, b0, c0, d0) == Rounds(32, init, input)
    ensures State(a, b, c, d) == Rounds(48, init, input)
  {
    hide Step, F1, F2, F3, F4, Rounds;
    a, b, c, d := a0, b0, c0, d0;
    Next(32, init, input, a, b, c, d, 5, 0xfffa3942, 4);
    a := Step(F3(b, c, d), a, b, input[5], Word(0xfffa3942), 4);
    Next(33, init, input, a, b, c, d, 8, 0x8771f681, 11);
    d := Step(F3(a, b, c), d, a, input[8], Word(0x8771f681), 11);
    Next(34, init, input, a, b, c, d, 11, 0x6d9d6122, 16);
    c := Step(F3(d, a, b), c, d, input[11], Word(0x6d9d6122), 16);
    Next(35, init, input, a, b, c, d, 14, 0xfde5380c, 23);
    b := Step(F3(c, d, a), b, c, input[14], Word(0xfde5380c), 23);
    Next(36, init, input, a, b, c, d, 1, 0xa4beea44, 4);
    a := Step(F3(b, c, d), a, b, input[1], Word(0xa4beea44), 4);
    Next(37, init, input, a, b, c, d, 4, 0x4bdecfa9, 11);
    d := Step(F3(a, b, c), d, a, input[4], Word(0x4bdecfa9), 11);
    Next(38, init, input, a, b, c, d, 7, 0xf6bb4b60, 16);
    c := Step(F3(d, a, b), c, d, input[7], Word(0xf6bb4b60), 16);
    Next(39, init, input, a, b, c, d, 10, 0xbebfbc70, 23);
    b := Step(F3(c, d, a), b, c, input[10], Word(0xbebfbc70), 23);
    Next(40, init, input, a, b, c, d, 13, 0x289b7ec6, 4);
    a := Step(F3(b, c, d), a, b, input[13], Word(0x289b7ec6), 4);
    Next(41, init, input, a, b, c, d, 0, 0xeaa127fa, 11);
    d := Step(F3(a, b, c), d, a, input[0], Word(0xeaa127fa), 11);
    Next(42, init, input, a, b, c, d, 3, 0xd4ef3085, 16);
    c := Step(F3(d, a, b), c, d, input[3], Word(0xd4ef3085), 16);
    Next(43, init, input, a, b, c, d, 6, 0x04881d05, 23);
    b := Step(F3(c, d, a), b, c, input[6], Word(0x04881d05), 23);
    Next(44, init, input, a, b, c, d, 9, 0xd9d4d039, 4);
    a := Step(F3(b, c, d), a, b, input[9], Word(0xd9d4d039), 4);
    Next(45, init, input, a, b, c, d, 12, 0xe6db99e5, 11);
    d := Step(F3(a, b, c), d, a, input[12], Word(0xe6db99e5), 11);
    Next(46, init, input, a, b, c, d, 15, 0x1fa27cf8, 16);
    c := Step(F3(d, a, b), c, d, input[15], Word(0x1fa27cf8), 16);
    Next(47, init, input, a, b, c, d, 2, 0xc4ac5665, 23);
    b := Step(F3(c, d, a), b, c, input[2], Word(0xc4ac5665), 23);
  }

  /** Round 4 of MD5Transform. */
  method Round4(ghost init: State, input: Block, a0: Word, b0: Word, c0: Word, d0: Word)
    returns (a: Word, b: Word, c: Word, d: Word)
    requires State(a0, b0, c0, d0) == Rounds(48, init, input)
    ensures State(a, b, c, d) == Rounds(64, init, input)
  {
    hide Step, F1, F2, F3, F4, Rounds;
    a, b, c, d := a0, b0, c0, d0;
    Next(48, init, input, a, b, c, d, 0, 0xf4292244, 6);
    a := Step(F4(b, c, d), a, b, input[0], Word(0xf4292244), 6);
    Next(49, init, input, a, b, c, d, 7, 0x432aff97, 10);
    d := Step(F4(a, b, c), d, a, input[7], Word(0x432aff97), 10);
    Next(50, init, input, a, b, c, d, 14, 0xab9423a7, 15);
    c := Step(F4(d, a, b), c, d, input[14], Word(0xab9423a7), 15);
    Next(51, init, input, a, b, c, d, 5, 0xfc93a039, 21);
    b := Step(F4(c, d, a), b, c, input[5], Word(0xfc93a039), 21);
    Next(52, init, input, a, b, c, d, 12, 0x655b59c3, 6);
    a := Step(F4(b, c, d), a, b, input[12], Word(0x655b59c3), 6);
    Next(53, init, input, a, b, c, d, 3, 0x8f0ccc92, 10);
    d := Step(F4(a, b, c), d, a, input[3], Word(0x8f0ccc92), 10);
    Next(54, init, input, a, b, c, d, 10, 0xffeff47d, 15);
    c := Step(F4(d, a, b), c, d, input[10], Word(0xffeff47d), 15);
    Next(55, init, input, a, b, c, d, 1, 0x85845dd1, 21);
    b := Step(F4(c, d, a), b, c, input[1], Word(0x85845dd1), 21);
    Next(56, init, input, a, b, c, d, 8, 0x6fa87e4f, 6);
    a := Step(F4(b, c, d), a, b, input[8], Word(0x6fa87e4f), 6);
    Next(57, init, input, a, b, c, d, 15, 0xfe2ce6e0, 10);
    d := Step(F4(a, b, c), d, a, input[15], Word(0xfe2ce6e0), 10);
    Next(58, init, input, a, b, c, d, 6, 0xa3014314, 15);
    c := Step(F4(d, a, b), c, d, input[6], Word(0xa3014314), 15);
    Next(59, init, input, a, b, c, d, 13, 0x4e0811a1, 21);
    b := Step(F4(c, d, a), b, c, input[13], Word(0x4e0811a1), 21);
    Next(60, init, input, a, b, c, d, 4, 0xf7537e82, 6);
    a := Step(F4(b, c, d), a, b, input[4], Word(0xf7537e82), 6);
    Next(61, init, input, a, b, c, d, 11, 0xbd3af235, 10);
    d := Step(F4(a, b, c), d, a, input[11], Word(0xbd3af235), 10);
    Next(62, init, input, a, b, c, d, 2, 0x2ad7d2bb, 15);
    c := Step(F4(d, a, b), c, d, input[2], Word(0x2ad7d2bb), 15);
    Next(63, init, input, a, b, c, d, 9, 0xeb86d391, 21);
    b := Step(F4(c, d, a), b, c, input[9], Word(0xeb86d391), 21);
  }

  method MD5Transform(buf: array<Word>, input: Block)
    requires buf.Length == 4
    modifies buf
    ensures Registers(buf) == Compress(old(Registers(buf)), input)
  {
    hide Rounds, Plus;
    ghost var init := Registers(buf);
    var a, b, c, d := buf[0], buf[1], buf[2], buf[3];
    RoundsStart(init, input);
    a, b, c, d := Round1(init, input, a, b, c, d);
    a, b, c, d := Round2(init, input, a, b, c, d);
    a, b, c, d := Round3(init, input, a, b, c, d);
    a, b, c, d := Round4(init, input, a, b, c, d);
    buf[0] := Plus(buf[0], a);
    buf[1] := Plus(buf[1], b);
    buf[2] := Plus(buf[2], c);
    buf[3] := Plus(buf[3], d);
  }

  lemma RoundsStart(s: State, input: Block)
    ensures Rounds(0, s, input) == s
  {
  }

  function Registers(buf: array<Word>): State
    requires buf.Length == 4
    reads buf
  {
    State(buf[0], buf[1], buf[2], buf[3])
  }
}
