/** The streaming MD5 context of md5.c, on a host of either byte order, against RFC 1321. */
module Md5 {
  import opened Rfc1321
  import opened Md5Transform

  // ---- Memory of a host of either byte order ----

  /** The four bytes in memory of a 32-bit word. */
  function Store(little: bool, w: Word): (b: seq<byte>)
    ensures |b| == 4
  {
    var e := EncodeWord(w);
    if little then e else [e[3], e[2], e[1], e[0]]
  }

  function Load(little: bool, b: seq<byte>, i: nat): Word
    requires 4 * i + 4 <= |b|
  {
    if little then DecodeWord(b[4 * i], b[4 * i + 1], b[4 * i + 2], b[4 * i + 3])
    else DecodeWord(b[4 * i + 3], b[4 * i + 2], b[4 * i + 1], b[4 * i])
  }

  /** What `(uint32_t *)in` shows of 64 bytes of memory. */
  function Words(little: bool, b: seq<byte>): Block
    requires |b| == 64
  {
    seq(16, i requires 0 <= i < 16 => Load(little, b, i))
  }

  lemma DecodeEncode(w: bv32)
    ensures ((w & 0xFF) as byte as bv32) | ((((w >> 8) & 0xFF) as byte as bv32) << 8)
          | ((((w >> 16) & 0xFF) as byte as bv32) << 16) | ((((w >> 24) & 0xFF) as byte as bv32) << 24) == w
  {
  }

  lemma WordRoundTrip(w: Word)
    ensures var e := EncodeWord(w); DecodeWord(e[0], e[1], e[2], e[3]) == w
  {
    DecodeEncode(w.bits);
  }

  lemma EncodeDecode(b0: byte, b1: byte, b2: byte, b3: byte)
    ensures EncodeWord(DecodeWord(b0, b1, b2, b3)) == [b0, b1, b2, b3]
  {
  }

  /** Reversing twice through memory: whatever the host, a word stored by it and then
      passed through `byteReverse` leaves the low-order byte first in memory. */
  lemma ReverseOfStore(little: bool, w: Word)
    ensures
      var m := Store(little, w);
      Store(little, DecodeWord(m[0], m[1], m[2], m[3])) == EncodeWord(w)
  {
    var e := EncodeWord(w);
    hide DecodeWord, EncodeWord;
    if little {
      DecodeEncodeWord(w);
    } else {
      EncodeDecode(e[3], e[2], e[1], e[0]);
    }
  }

  lemma DecodeEncodeWord(w: Word)
    ensures var e := EncodeWord(w); DecodeWord(e[0], e[1], e[2], e[3]) == w
  {
    WordRoundTrip(w);
  }

  lemma LoadOfStore(little: bool, w: Word)
    ensures Load(little, Store(little, w), 0) == w
  {
    var e := EncodeWord(w);
    WordRoundTrip(w);
    hide DecodeWord, EncodeWord;
  }

  // ---- The bit counter ----

  const M: nat := 0x1_0000_0000

  lemma CounterIs(n: nat, len: nat)
    requires len < M
    ensures
      var t := LengthLow(n);
      var low := (t + 8 * len % M) % M;
      low == LengthLow(n + len)
      && (LengthHigh(n) + (if low < t then 1 else 0) + len / 0x2000_0000) % M == LengthHigh(n + len)
  {
    var t := LengthLow(n);
    var q := 8 * n / M;
    assert 8 * n == q * M + t;
    var ql, tl := 8 * len / M, 8 * len % M;
    assert 8 * len == ql * M + tl && ql == len / 0x2000_0000;
    var carry := if t + tl < M then 0 else 1;
    assert 8 * (n + len) == (q + ql + carry) * M + (t + tl - carry * M);
    ModIs(q + ql + carry, t + tl - carry * M, 8 * (n + len));
    ModSum(q, carry + ql);
  }

  lemma ModIs(q: nat, r: nat, x: nat)
    requires x == q * M + r && r < M
    ensures x / M == q && x % M == r
  {
  }

  lemma ModSum(x: nat, y: nat)
    ensures (x % M + y) % M == (x + y) % M
  {
  }

  lemma CountIs(n: nat)
    ensures LengthLow(n) / 8 % 64 == n % 64
  {
    var q := 8 * n / M;
    assert LengthLow(n) / 8 == n - q * 0x2000_0000;
    assert n == LengthLow(n) / 8 + 64 * (q * 0x80_0000);
    Mod64(LengthLow(n) / 8, q * 0x80_0000);
  }

  /** `(t >> 3) & 0x3f` is the number of bytes waiting in the buffer. */
  lemma WaitingCount(start: nat, rest: nat)
    requires start % 64 == 0 && rest < 64
    ensures LengthLow(start + rest) / 8 % 64 == rest
  {
    CountIs(start + rest);
    Mod64(rest, start / 64);
  }

  lemma Mod64(x: nat, q: nat)
    ensures (x + 64 * q) % 64 == x % 64
  {
  }

  // ---- Blocks ----

  lemma BlocksStep(done: seq<byte>, block: seq<byte>)
    requires |done| % 64 == 0 && |block| == 64
    ensures Blocks(done + block) == Compress(Blocks(done), Decode(block))
  {
    assert (done + block)[..|done|] == done && (done + block)[|done|..] == block;
  }

  /** The first 4 * longs bytes after `byteReverse(a, longs)`: each group of four bytes, read
      low-order byte first, is stored back as a word of the host. */
  function Reversed(little: bool, a: seq<byte>, longs: nat): (r: seq<byte>)
    requires 4 * longs <= |a|
    ensures |r| == 4 * longs
  {
    if longs == 0 then [] else Reversed(little, a, longs - 1) + Store(little, WordAt(a, longs - 1))
  }

  ghost predicate IsReversed(little: bool, a: seq<byte>, b: seq<byte>, longs: nat)
    requires 4 * longs <= |a|
  {
    b == Reversed(little, a, longs) + a[4 * longs..]
  }

  lemma {:induction false} ReversedGroup(little: bool, a: seq<byte>, longs: nat, i: nat)
    requires i < longs && 4 * longs <= |a|
    ensures Reversed(little, a, longs)[4 * i..4 * i + 4] == Store(little, WordAt(a, i))
  {
    hide WordAt, Store;
    if i < longs - 1 {
      ReversedGroup(little, a, longs - 1, i);
      assert Reversed(little, a, longs)[4 * i..4 * i + 4] == Reversed(little, a, longs - 1)[4 * i..4 * i + 4];
    }
  }

  /** What the transform reads from a reversed buffer are the words of RFC 1321. */
  lemma ReversedWord(little: bool, a: seq<byte>, b: seq<byte>, longs: nat, i: nat)
    requires 4 * longs <= |a| && IsReversed(little, a, b, longs) && i < longs
    ensures Load(little, b, i) == WordAt(a, i)
  {
    hide DecodeWord, WordAt, Reversed;
    var m := b[4 * i..4 * i + 4];
    ReversedGroup(little, a, longs, i);
    assert m == Reversed(little, a, longs)[4 * i..4 * i + 4];
    LoadOfStore(little, WordAt(a, i));
    assert m[0] == b[4 * i] && m[1] == b[4 * i + 1] && m[2] == b[4 * i + 2] && m[3] == b[4 * i + 3];
  }

  lemma ReversedBlock(little: bool, a: seq<byte>, b: seq<byte>)
    requires |a| == 64 && IsReversed(little, a, b, 16)
    ensures Words(little, b) == Decode(a)
  {
    assert |b| == 64;
    hide Load, WordAt, IsReversed;
    forall i | 0 <= i < 16 ensures Words(little, b)[i] == Decode(a)[i] {
      ReversedWord(little, a, b, 16, i);
    }
  }

  /** `memcpy(a + at, src, |src|)` */
  method Copy(a: array<byte>, at: nat, src: seq<byte>)
    requires at + |src| <= a.Length
    modifies a
    ensures a[..] == old(a[..at]) + src + old(a[at + |src|..])
  {
    forall i | 0 <= i < |src| {
      a[at + i] := src[i];
    }
  }

  lemma ReverseStep(little: bool, was: seq<byte>, now: seq<byte>, done: nat)
    requires 4 * done + 4 <= |was| && IsReversed(little, was, now, done)
    ensures |now| == |was|
    ensures IsReversed(little, was, now[..4 * done] + Store(little, WordAt(now, done)) + now[4 * done + 4..], done + 1)
  {
    hide DecodeWord, Store;
    var p := 4 * done;
    assert now[p] == was[p] && now[p + 1] == was[p + 1] && now[p + 2] == was[p + 2] && now[p + 3] == was[p + 3];
    assert now[..p] == Reversed(little, was, done) && now[p + 4..] == was[p + 4..];
  }

  /** `t = buf[3]<<24 | buf[2]<<16 | buf[1]<<8 | buf[0]; *(uint32_t *)buf = t;` */
  method ReverseWord(little: bool, a: array<byte>, i: nat)
    requires 4 * i + 4 <= a.Length
    modifies a
    ensures a[..] == old(a[..])[..4 * i] + Store(little, WordAt(old(a[..]), i)) + old(a[..])[4 * i + 4..]
  {
    hide DecodeWord, Store;
    var p := 4 * i;
    Copy(a, p, Store(little, DecodeWord(a[p], a[p + 1], a[p + 2], a[p + 3])));
  }

  /** `byteReverse` */
  method ByteReverse(little: bool, a: array<byte>, longs: nat)
    requires 0 < longs && 4 * longs <= a.Length
    modifies a
    ensures IsReversed(little, old(a[..]), a[..], longs)
  {
    hide WordAt, Store, IsReversed;
    ghost var was := a[..];
    var done := 0;
    ReversedNone(little, was);
    while done < longs
      invariant 0 <= done <= longs
      invariant IsReversed(little, was, a[..], done)
    {
      ReverseStep(little, was, a[..], done);
      ReverseWord(little, a, done);
      done := done + 1;
    }
  }

  lemma ReversedNone(little: bool, was: seq<byte>)
    ensures IsReversed(little, was, was, 0)
  {
  }

  class Context {
    const little: bool   // byte order of the host
    const wide: bool     // 64-bit pointers
    const buf: array<Word>
    const input: array<byte>
    var bits0: nat
    var bits1: nat
    ghost var start: seq<byte>   // the whole blocks hashed so far
    ghost var rest: seq<byte>    // the bytes waiting in `input`

    ghost predicate Shape() {
      buf.Length == 4 && input.Length == 64
    }

    /** Everything given to the context so far. */
    ghost function Data(): seq<byte>
      reads this
    {
      start + rest
    }

    ghost predicate Buffered()
      reads this, buf, input
    {
      && Shape()
      && |start| % 64 == 0 && Registers(buf) == Blocks(start)
      && |rest| < 64 && input[..|rest|] == rest
    }

    ghost predicate Valid()
      reads this, buf, input
    {
      Buffered() && bits0 == LengthLow(|Data()|) && bits1 == LengthHigh(|Data()|)
    }

    /** `MD5Init` */
    constructor (little: bool, wide: bool)
      ensures Valid() && Data() == [] && fresh(buf) && fresh(input)
      ensures this.little == little && this.wide == wide
    {
      this.little := little;
      this.wide := wide;
      buf := new Word[4] [Word(0x67452301), Word(0xefcdab89), Word(0x98badcfe), Word(0x10325476)];
      input := new byte[64];
      bits0, bits1 := 0, 0;
      start, rest := [], [];
    }

    /** `byteReverse(in, 16); MD5Transform(buf, (uint32_t *)in);` */
    method TransformInput()
      requires Shape()
      modifies buf, input
      ensures Registers(buf) == Compress(old(Registers(buf)), Decode(old(input[..])))
    {
      hide Compress;
      ghost var was := input[..];
      ByteReverse(little, input, 16);
      ReversedBlock(little, was, input[..]);
      MD5Transform(buf, Words(little, input[..]));
    }

    /** The bit count of `MD5Update`: 64 bits in two words, with carry. */
    method CountBits(len: nat, ghost n: nat)
      requires len < M && bits0 == LengthLow(n) && bits1 == LengthHigh(n)
      modifies this`bits0, this`bits1
      ensures bits0 == LengthLow(n + len) && bits1 == LengthHigh(n + len)
    {
      var t := bits0;
      CounterIs(n, len);
      bits0 := (t + len * 8 % M) % M;
      if bits0 < t {
        bits1 := (bits1 + 1) % M;
      }
      bits1 := (bits1 + len / 0x2000_0000) % M;
      ModSum(LengthHigh(n) + if bits0 < t then 1 else 0, len / 0x2000_0000);
    }

    /** `MD5Update`: count the bits, fill up a partly filled block, hash whole blocks, and
        keep the rest for later. */
    method Update(bytes: seq<byte>)
      requires Valid() && |bytes| < M
      modifies this, buf, input
      ensures Valid() && Data() == old(Data()) + bytes
    {
      hide Compress, LengthLow, LengthHigh, Blocks, Decode;
      var t := bits0 / 8 % 64;
      WaitingCount(|start|, |rest|);
      CountBits(|bytes|, |Data()|);
      var pos := 0;
      if t != 0 {
        if |bytes| < 64 - t {
          Wait(t, bytes);
          return;
        }
        pos := 64 - t;
        FillBlock(t, bytes[..pos]);
      }
      WholeBlocks(bytes[pos..]);
      assert old(Data()) + bytes[..pos] + bytes[pos..] == old(Data()) + bytes;
    }

    /** Not enough for a block: keep the bytes. */
    method Wait(t: nat, bytes: seq<byte>)
      requires Buffered() && t == |rest| && t + |bytes| < 64
      modifies this`rest, input
      ensures Buffered() && rest == old(rest) + bytes
    {
      Copy(input, t, bytes);
      rest := rest + bytes;
    }

    /** Completes a partly filled block and hashes it. */
    method FillBlock(t: nat, chunk: seq<byte>)
      requires Buffered() && t == |rest| && t + |chunk| == 64
      modifies this`start, this`rest, buf, input
      ensures Buffered() && rest == [] && start == old(start + rest) + chunk
    {
      hide Compress, Blocks, Decode;
      Copy(input, t, chunk);
      assert input[..] == rest + chunk;
      BlocksStep(start, rest + chunk);
      assert start + (rest + chunk) == start + rest + chunk;
      TransformInput();
      start, rest := start + rest + chunk, [];
    }

    /** The loop of `MD5Update` over whole blocks and the final copy. */
    method WholeBlocks(bytes: seq<byte>)
      requires Buffered() && rest == []
      modifies this`start, this`rest, buf, input
      ensures Buffered() && Data() == old(start) + bytes
    {
      hide Compress, Blocks, Decode;
      var pos := 0;
      while |bytes| - pos >= 64
        invariant 0 <= pos <= |bytes| && Buffered() && rest == []
        invariant start == old(start) + bytes[..pos]
      {
        FillBlock(0, bytes[pos..pos + 64]);
        assert bytes[..pos] + bytes[pos..pos + 64] == bytes[..pos + 64];
        pos := pos + 64;
      }
      Wait(0, bytes[pos..]);
      assert bytes[..pos] + bytes[pos..] == bytes;
    }

    /** Puts the padding bit and zeros after the waiting bytes, hashing a block when the
        length does not fit any more: `input` starts with the 56 bytes before the length. */
    method Pad(count: nat, ghost message: seq<byte>) returns (ghost tail: seq<byte>)
      requires Buffered() && count == |rest|
      modifies this`start, this`rest, buf, input
      ensures Shape() && |tail| == 56 && input[..56] == tail
      ensures |start| % 64 == 0 && Registers(buf) == Blocks(start)
      ensures start + tail == old(Data()) + [0x80] + Zeros(ZeroBytes(count))
    {
      hide Compress, Blocks, Decode;
      var free := 63 - count;
      if free < 8 {
        FillBlock(count, [0x80] + Zeros(free));
        Copy(input, 0, Zeros(56));
        tail := Zeros(56);
        assert Zeros(free) + Zeros(56) == Zeros(ZeroBytes(count));
        assert start + tail == old(Data()) + [0x80] + (Zeros(free) + Zeros(56));
      } else {
        Copy(input, count, [0x80] + Zeros(free - 8));
        tail := rest + [0x80] + Zeros(free - 8);
        assert input[..56] == tail;
        assert start + tail == old(Data()) + [0x80] + Zeros(free - 8);
      }
    }

    /** `byteReverse((unsigned char *)buf, 4); memcpy(digest, buf, 16);` The reversal is done in
        place, so the registers are left as the host's words of the digest. */
    method Output() returns (digest: seq<byte>)
      requires Shape()
      modifies buf
      ensures digest == Encode(old(Registers(buf))) && |digest| == 16
      ensures forall i :: 0 <= i < 4 ==> buf[i] == Load(little, digest, i)
    {
      hide Encode, Store, Reversed, Load;
      var memory := new byte[16];
      Copy(memory, 0, Store(little, buf[0]) + Store(little, buf[1]) + Store(little, buf[2]) + Store(little, buf[3]));
      ghost var stored := memory[..];
      ByteReverse(little, memory, 4);
      OutputIs(little, Registers(buf), stored, memory[..]);
      digest := memory[..];
      buf[0], buf[1], buf[2], buf[3] :=
        Load(little, digest, 0), Load(little, digest, 1), Load(little, digest, 2), Load(little, digest, 3);
    }

    /** Nothing is left of the message or its digest. */
    ghost predicate Cleared()
      reads this, buf, input
      requires Shape()
    {
      (forall i :: 0 <= i < 4 ==> buf[i] == Word(0)) && bits0 == 0 && bits1 == 0 && input[..] == Zeros(64)
    }

    /** `MD5Final`. The last statement is meant to clear the context, but it takes the size of a
        pointer and clears that many bytes: one register, or two. The others keep their part of
        the digest, `bits` the length of the message and `in` its last block. */
    method Final() returns (digest: seq<byte>)
      requires Valid()
      modifies this, buf, input
      ensures digest == Digest(old(Data())) && |digest| == 16
      ensures buf[0] == Word(0) && buf[1] == if wide then Word(0) else Load(little, digest, 1)
      ensures buf[2] == Load(little, digest, 2) && buf[3] == Load(little, digest, 3)
      ensures bits0 == LengthLow(|old(Data())|) && bits1 == LengthHigh(|old(Data())|)
      ensures Words(little, input[..]) == Decode(FinalBlock(old(Data())))
      ensures !Cleared()
    {
      digest := Finish();
      buf[0] := Word(0);
      if wide {
        buf[1] := Word(0);
      }
      NeverCleared(old(Data()), little, input[..]);
    }

    /** `MD5Final` but for its last statement. */
    method Finish() returns (digest: seq<byte>)
      requires Valid()
      modifies this, buf, input
      ensures digest == Digest(old(Data())) && |digest| == 16
      ensures forall i :: 0 <= i < 4 ==> buf[i] == Load(little, digest, i)
      ensures bits0 == LengthLow(|old(Data())|) && bits1 == LengthHigh(|old(Data())|)
      ensures Words(little, input[..]) == Decode(FinalBlock(old(Data())))
    {
      hide Compress, Blocks, Decode, LengthLow, LengthHigh, Words, Encode, ToWord, Store, EncodeWord, IsReversed, Load;
      ghost var message := Data();
      WaitingCount(|start|, |rest|);
      var count := bits0 / 8 % 64;
      ghost var tail := Pad(count, message);
      ghost var block := input[..];
      ByteReverse(little, input, 14);
      ghost var reversed := input[..];
      var low, high := ToWord(bits0), ToWord(bits1);
      Copy(input, 56, Store(little, low));
      Copy(input, 60, Store(little, high));
      LastBlock(little, block, reversed, input[..], low, high);
      BlocksStep(start, tail + EncodeWord(low) + EncodeWord(high));
      PaddedMessage(message, start, tail, count);
      FinalBlockIs(message, start, tail + EncodeWord(low) + EncodeWord(high));
      MD5Transform(buf, Words(little, input[..]));
      digest := Output();
    }
  }

  /** The last block of the padded message. */
  function FinalBlock(message: seq<byte>): (b: seq<byte>)
    ensures |b| == 64
  {
    var padded := message + Padding(|message|);
    assert |padded| >= 64 by { PaddedLength(|message|); }
    padded[|padded| - 64..]
  }

  lemma PaddedLength(n: nat)
    ensures n + |Padding(n)| >= 64
  {
  }

  lemma FinalBlockIs(message: seq<byte>, start: seq<byte>, block: seq<byte>)
    requires |block| == 64 && start + block == message + Padding(|message|)
    ensures FinalBlock(message) == block
  {
    hide Padding;
    assert (start + block)[|start|..] == block;
  }

  /** For no message does `MD5Final` clear the context: the length is not zero, or the last block
      begins with the padding bit. */
  lemma NeverCleared(message: seq<byte>, little: bool, input: seq<byte>)
    requires |input| == 64 && Words(little, input) == Decode(FinalBlock(message))
    ensures LengthLow(|message|) != 0 || input != Zeros(64)
  {
    hide DecodeWord;
    var n := |message|;
    if LengthLow(n) == 0 {
      WholeBlocksOnly(n);
      var block := FinalBlock(message);
      PaddingBlock(message);
      assert Words(little, input)[0] == Decode(block)[0];
      assert Load(little, input, 0) == WordAt(block, 0);
      PaddingBit();
    }
  }

  lemma WholeBlocksOnly(n: nat)
    requires LengthLow(n) == 0
    ensures n % 64 == 0
  {
    CountIs(n);
  }

  lemma PaddingBlock(message: seq<byte>)
    requires |message| % 64 == 0
    ensures FinalBlock(message)[0] == 0x80 && forall i :: 1 <= i < 4 ==> FinalBlock(message)[i] == 0
  {
    hide EncodeWord;
    var padded := message + Padding(|message|);
    assert |Padding(|message|)| == 64;
    assert FinalBlock(message) == Padding(|message|);
  }

  lemma PaddingBit()
    ensures DecodeWord(0x80, 0, 0, 0) != DecodeWord(0, 0, 0, 0)
  {
  }

  /** The last block: 14 reversed words and the two words of the length, stored directly. */
  lemma LastBlock(little: bool, a: seq<byte>, b: seq<byte>, c: seq<byte>, low: Word, high: Word)
    requires |a| == 64 && IsReversed(little, a, b, 14)
    requires |b| == 64 && c == b[..56] + Store(little, low) + Store(little, high)
    ensures Words(little, c) == Decode(a[..56] + EncodeWord(low) + EncodeWord(high))
  {
    hide DecodeWord, EncodeWord, Store;
    var block := a[..56] + EncodeWord(low) + EncodeWord(high);
    forall i | 0 <= i < 16 ensures Words(little, c)[i] == Decode(block)[i] {
      if i < 14 {
        ReversedWord(little, a, b, 14, i);
        assert Load(little, c, i) == Load(little, b, i) && WordAt(block, i) == WordAt(a, i);
      } else {
        var w := if i == 14 then low else high;
        LoadOfStore(little, w);
        DecodeEncodeWord(w);
        assert Load(little, c, i) == Load(little, Store(little, w), 0);
        assert forall k | 0 <= k < 4 :: block[4 * i + k] == EncodeWord(w)[k];
      }
    }
  }

  lemma PaddedMessage(message: seq<byte>, start: seq<byte>, tail: seq<byte>, count: nat)
    requires count == |message| % 64
    requires start + tail == message + [0x80] + Zeros(ZeroBytes(count))
    ensures
      var low, high := ToWord(LengthLow(|message|)), ToWord(LengthHigh(|message|));
      start + (tail + EncodeWord(low) + EncodeWord(high)) == message + Padding(|message|)
  {
    hide EncodeWord, LengthLow, LengthHigh, ToWord;
    var e1, e2 := EncodeWord(ToWord(LengthLow(|message|))), EncodeWord(ToWord(LengthHigh(|message|)));
    assert start + (tail + e1 + e2) == (start + tail) + e1 + e2;
    assert ZeroBytes(|message|) == ZeroBytes(count);
    assert message + Padding(|message|) == message + [0x80] + Zeros(ZeroBytes(count)) + e1 + e2;
  }

  /** The digest buffer in memory, reversed, is the output of RFC 1321. */
  lemma OutputIs(little: bool, s: State, stored: seq<byte>, memory: seq<byte>)
    requires stored == Store(little, s.a) + Store(little, s.b) + Store(little, s.c) + Store(little, s.d)
    requires IsReversed(little, stored, memory, 4)
    ensures memory == Encode(s)
  {
    hide DecodeWord, EncodeWord, Store;
    OutputWord(little, s.a, stored, memory, 0);
    OutputWord(little, s.b, stored, memory, 1);
    OutputWord(little, s.c, stored, memory, 2);
    OutputWord(little, s.d, stored, memory, 3);
    assert memory == memory[0..4] + memory[4..8] + memory[8..12] + memory[12..16];
  }

  lemma OutputWord(little: bool, w: Word, stored: seq<byte>, memory: seq<byte>, i: nat)
    requires |stored| == 16 && i < 4 && IsReversed(little, stored, memory, 4)
    requires stored[4 * i..4 * i + 4] == Store(little, w)
    ensures memory[4 * i..4 * i + 4] == EncodeWord(w)
  {
    hide DecodeWord, EncodeWord, Store, Reversed;
    ReverseOfStore(little, w);
    ReversedGroup(little, stored, 4, i);
    assert memory == Reversed(little, stored, 4);
    var m := Store(little, w);
    assert forall k | 0 <= k < 4 :: m[k] == stored[4 * i..4 * i + 4][k] == stored[4 * i + k];
    assert WordAt(stored, i) == DecodeWord(m[0], m[1], m[2], m[3]);
  }

  function Concat(chunks: seq<seq<byte>>): seq<byte> {
    if chunks == [] then [] else Concat(chunks[..|chunks| - 1]) + chunks[|chunks| - 1]
  }

  /** However a message is cut into `MD5Update` calls, on a host of either byte order,
      the digest is the one RFC 1321 gives for the whole message. */
  method DigestOfChunks(little: bool, wide: bool, chunks: seq<seq<byte>>) returns (digest: seq<byte>)
    requires forall c <- chunks :: |c| < M
    ensures digest == Digest(Concat(chunks))
  {
    var context := new Context(little, wide);
    for i := 0 to |chunks|
      invariant context.Valid() && context.Data() == Concat(chunks[..i])
      invariant fresh(context) && fresh(context.buf) && fresh(context.input)
    {
      context.Update(chunks[i]);
      assert chunks[..i + 1][..i] == chunks[..i];
    }
    assert chunks[..|chunks|] == chunks;
    digest := context.Final();
  }
}
