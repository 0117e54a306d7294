/** The MD5 message digest as sections 3.1 to 3.5 of RFC 1321 define it. */
module Rfc1321 {

  /** A 32-bit word. */
  datatype Word = Word(bits: bv32)

  /** X <<< s: circular shift left by s bit positions. */
  function RotateLeft(x: bv32, s: nat): bv32
    requires s <= 32
  {
    (x << s) | (x >> (32 - s))
  }

  /** The digest buffer of section 3.3: registers A, B, C and D. */
  datatype State = State(a: Word, b: Word, c: Word, d: Word)

  /** A 16-word block. */
  type Block = x: seq<Word> | |x| == 16 witness seq(16, _ => Word(0))

  // ---- Section 3.4: the four auxiliary functions, the table and the 64 operations ----

  function F(x: Word, y: Word, z: Word): Word { Word(FBits(x.bits, y.bits, z.bits)) }
  function G(x: Word, y: Word, z: Word): Word { Word(GBits(x.bits, y.bits, z.bits)) }
  function H(x: Word, y: Word, z: Word): Word { Word(HBits(x.bits, y.bits, z.bits)) }
  function I(x: Word, y: Word, z: Word): Word { Word(IBits(x.bits, y.bits, z.bits)) }

  function FBits(x: bv32, y: bv32, z: bv32): bv32 { (x & y) | (!x & z) }
  function GBits(x: bv32, y: bv32, z: bv32): bv32 { (x & z) | (y & !z) }
  function HBits(x: bv32, y: bv32, z: bv32): bv32 { x ^ y ^ z }
  function IBits(x: bv32, y: bv32, z: bv32): bv32 { y ^ (x | !z) }

  /** Element i+1 of the table: the integer part of 2^32 times abs(sin(i+1)). */
  function T(i: nat): Word {
    if i < 16 then T1(i) else if i < 32 then T2(i - 16) else if i < 48 then T3(i - 32) else T4(i - 48)
  }

  function T1(i: int): Word {
    match i
    case 0 => Word(0xd76aa478)
    case 1 => Word(0xe8c7b756)
    case 2 => Word(0x242070db)
    case 3 => Word(0xc1bdceee)
    case 4 => Word(0xf57c0faf)
    case 5 => Word(0x4787c62a)
    case 6 => Word(0xa8304613)
    case 7 => Word(0xfd469501)
    case 8 => Word(0x698098d8)
    case 9 => Word(0x8b44f7af)
    case 10 => Word(0xffff5bb1)
    case 11 => Word(0x895cd7be)
    case 12 => Word(0x6b901122)
    case 13 => Word(0xfd987193)
    case 14 => Word(0xa679438e)
    case _ => Word(0x49b40821)
  }

  function T2(i: int): Word {
    match i
    case 0 => Word(0xf61e2562)
    case 1 => Word(0xc040b340)
    case 2 => Word(0x265e5a51)
    case 3 => Word(0xe9b6c7aa)
    case 4 => Word(0xd62f105d)
    case 5 => Word(0x02441453)
    case 6 => Word(0xd8a1e681)
    case 7 => Word(0xe7d3fbc8)
    case 8 => Word(0x21e1cde6)
    case 9 => Word(0xc33707d6)
    case 10 => Word(0xf4d50d87)
    case 11 => Word(0x455a14ed)
    case 12 => Word(0xa9e3e905)
    case 13 => Word(0xfcefa3f8)
    case 14 => Word(0x676f02d9)
    case _ => Word(0x8d2a4c8a)
  }

  function T3(i: int): Word {
    match i
    case 0 => Word(0xfffa3942)
    case 1 => Word(0x8771f681)
    case 2 => Word(0x6d9d6122)
    case 3 => Word(0xfde5380c)
    case 4 => Word(0xa4beea44)
    case 5 => Word(0x4bdecfa9)
    case 6 => Word(0xf6bb4b60)
    case 7 => Word(0xbebfbc70)
    case 8 => Word(0x289b7ec6)
    case 9 => Word(0xeaa127fa)
    case 10 => Word(0xd4ef3085)
    case 11 => Word(0x04881d05)
    case 12 => Word(0xd9d4d039)
    case 13 => Word(0xe6db99e5)
    case 14 => Word(0x1fa27cf8)
    case _ => Word(0xc4ac5665)
  }

  function T4(i: int): Word {
    match i
    case 0 => Word(0xf4292244)
    case 1 => Word(0x432aff97)
    case 2 => Word(0xab9423a7)
    case 3 => Word(0xfc93a039)
    case 4 => Word(0x655b59c3)
    case 5 => Word(0x8f0ccc92)
    case 6 => Word(0xffeff47d)
    case 7 => Word(0x85845dd1)
    case 8 => Word(0x6fa87e4f)
    case 9 => Word(0xfe2ce6e0)
    case 10 => Word(0xa3014314)
    case 11 => Word(0x4e0811a1)
    case 12 => Word(0xf7537e82)
    case 13 => Word(0xbd3af235)
    case 14 => Word(0x2ad7d2bb)
    case _ => Word(0xeb86d391)
  }

  /** Which word of the block operation i uses. */
  function K(i: nat): (k: nat)
    ensures k < 16
  {
    if i < 16 then i % 16
    else if i < 32 then (1 + 5 * i) % 16
    else if i < 48 then (5 + 3 * i) % 16
    else 7 * i % 16
  }

  /** How far operation i rotates. */
  function S(i: nat): (s: nat)
    ensures 4 <= s <= 23
  {
    var j := i % 4;
    if i < 16 then (if j == 0 then 7 else if j == 1 then 12 else if j == 2 then 17 else 22)
    else if i < 32 then (if j == 0 then 5 else if j == 1 then 9 else if j == 2 then 14 else 20)
    else if i < 48 then (if j == 0 then 4 else if j == 1 then 11 else if j == 2 then 16 else 23)
    else (if j == 0 then 6 else if j == 1 then 10 else if j == 2 then 15 else 21)
  }

  function Mix(i: nat, x: Word, y: Word, z: Word): Word {
    if i < 16 then F(x, y, z) else if i < 32 then G(x, y, z) else if i < 48 then H(x, y, z) else I(x, y, z)
  }

  /** b + ((a + f + k + t) <<< s) */
  function Combine(a: Word, b: Word, f: Word, k: Word, t: Word, s: nat): Word
    requires s <= 32
  {
    Word(CombineBits(a.bits, b.bits, f.bits, k.bits, t.bits, s))
  }

  function CombineBits(a: bv32, b: bv32, f: bv32, k: bv32, t: bv32, s: nat): bv32
    requires s <= 32
  {
    b + RotateLeft(a + f + k + t, s)
  }

  /** [abcd k s i]: a = b + ((a + F(b,c,d) + X[k] + T[i]) <<< s). */
  function Operation(i: nat, a: Word, b: Word, c: Word, d: Word, x: Block): Word {
    Combine(a, b, Mix(i, b, c, d), x[K(i)], T(i), S(i))
  }

  /** Operation i on the buffer: the operations name the registers ABCD, DABC, CDAB, BCDA in turn. */
  function Apply(i: nat, s: State, x: Block): State {
    match i % 4
    case 0 => s.(a := Operation(i, s.a, s.b, s.c, s.d, x))
    case 1 => s.(d := Operation(i, s.d, s.a, s.b, s.c, x))
    case 2 => s.(c := Operation(i, s.c, s.d, s.a, s.b, x))
    case _ => s.(b := Operation(i, s.b, s.c, s.d, s.a, x))
  }

  /** The first n operations of the four rounds. */
  function Rounds(n: nat, s: State, x: Block): State {
    if n == 0 then s else Apply(n - 1, Rounds(n - 1, s, x), x)
  }

  function Plus(x: Word, y: Word): Word { Word(x.bits + y.bits) }

  function Compress(s: State, x: Block): State {
    var r := Rounds(64, s, x);
    State(Plus(s.a, r.a), Plus(s.b, r.b), Plus(s.c, r.c), Plus(s.d, r.d))
  }

  // ---- Sections 3.1 to 3.5: padding, length, blocks and output ----

  type byte = bv8

  const INIT := State(Word(0x67452301), Word(0xefcdab89), Word(0x98badcfe), Word(0x10325476))

  /** The word held by four bytes, low-order byte first. */
  function DecodeWord(b0: byte, b1: byte, b2: byte, b3: byte): Word {
    Word((b0 as bv32) | ((b1 as bv32) << 8) | ((b2 as bv32) << 16) | ((b3 as bv32) << 24))
  }

  function EncodeWord(w: Word): (b: seq<byte>)
    ensures |b| == 4
  {
    [(w.bits & 0xFF) as byte, ((w.bits >> 8) & 0xFF) as byte, ((w.bits >> 16) & 0xFF) as byte, ((w.bits >> 24) & 0xFF) as byte]
  }

  function WordAt(b: seq<byte>, i: nat): Word
    requires 4 * i + 4 <= |b|
  {
    DecodeWord(b[4 * i], b[4 * i + 1], b[4 * i + 2], b[4 * i + 3])
  }

  function Decode(b: seq<byte>): Block
    requires |b| == 64
  {
    seq(16, i requires 0 <= i < 16 => WordAt(b, i))
  }

  /** The buffer after all 64-byte blocks of `b`. */
  function Blocks(b: seq<byte>): State
    requires |b| % 64 == 0
  {
    if b == [] then INIT
    else
      var n := |b| - 64;
      Compress(Blocks(b[..n]), Decode(b[n..]))
  }

  function Zeros(n: nat): (z: seq<byte>)
    ensures |z| == n
  {
    seq(n, _ => 0)
  }

  /** The low-order and the high-order word of the length in bits, modulo 2^64. */
  function LengthLow(n: nat): nat { 8 * n % 0x1_0000_0000 }
  function LengthHigh(n: nat): nat { 8 * n / 0x1_0000_0000 % 0x1_0000_0000 }

  /** The two words are the length in bits modulo 2^64. */
  lemma LengthIs(n: nat)
    ensures LengthLow(n) < 0x1_0000_0000 && LengthHigh(n) < 0x1_0000_0000
    ensures (8 * n - LengthLow(n) - 0x1_0000_0000 * LengthHigh(n)) % 0x1_0000_0000_0000_0000 == 0
  {
    var q := 8 * n / 0x1_0000_0000;
    assert 8 * n - LengthLow(n) - 0x1_0000_0000 * LengthHigh(n) == q / 0x1_0000_0000 * 0x1_0000_0000_0000_0000;
  }

  function ToWord(n: nat): Word { Word((n % 0x1_0000_0000) as bv32) }

  /** Zero bytes after the first padding byte. */
  function ZeroBytes(n: nat): (z: nat)
    ensures z < 64 && (n + 1 + z) % 64 == 56 && (n + 9 + z) % 64 == 0
  {
    if n % 64 < 56 then 55 - n % 64 else 119 - n % 64
  }

  /** One bit, zero bits until the length is 448 modulo 512, and the length in bits as two
      words, low-order word first. */
  function Padding(n: nat): (p: seq<byte>)
    ensures |p| == ZeroBytes(n) + 9
  {
    [0x80] + Zeros(ZeroBytes(n))
    + EncodeWord(ToWord(LengthLow(n))) + EncodeWord(ToWord(LengthHigh(n)))
  }

  function Encode(s: State): seq<byte> {
    EncodeWord(s.a) + EncodeWord(s.b) + EncodeWord(s.c) + EncodeWord(s.d)
  }

  function Digest(message: seq<byte>): seq<byte> {
    Encode(Blocks(message + Padding(|message|)))
  }
}
