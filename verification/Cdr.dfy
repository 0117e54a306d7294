/** `OOBase::CDRStream`: a byte buffer in which every value of 1, 2, 4 or 8 bytes stands at a
    multiple of its size, in the byte order of the stream. The class is not in the repository;
    this is what its users rely on. */
module Cdr {

  type byte = n: nat | n < 256

  const MAX_ALIGNMENT: nat := 8

  function Limit(size: nat): (n: nat)
    ensures n > 0
  {
    if size == 0 then 1 else 256 * Limit(size - 1)
  }

  function Put(v: nat, size: nat, little: bool): (s: seq<byte>)
    ensures |s| == size
  {
    if size == 0 then []
    else if little then [v % 256] + Put(v / 256, size - 1, little)
    else Put(v / 256, size - 1, little) + [v % 256]
  }

  function Get(s: seq<byte>, little: bool): nat {
    if s == [] then 0
    else if little then s[0] + 256 * Get(s[1..], little)
    else s[|s| - 1] + 256 * Get(s[..|s| - 1], little)
  }

  lemma {:induction false} GetPut(v: nat, size: nat, little: bool)
    requires v < Limit(size)
    ensures Get(Put(v, size, little), little) == v
  {
    if size > 0 {
      GetPut(v / 256, size - 1, little);
      var s := Put(v, size, little);
      if little {
        assert s[1..] == Put(v / 256, size - 1, little);
      } else {
        assert s[..size - 1] == Put(v / 256, size - 1, little);
      }
    }
  }

  /** Byte `i` of a number, counted from its low-order end, is digit `i` to the base 256. */
  lemma {:induction false} PutDigits(v: nat, size: nat, little: bool, i: nat)
    requires i < size
    ensures Put(v, size, little)[if little then i else size - 1 - i] == v / Limit(i) % 256
  {
    if i > 0 {
      PutDigits(v / 256, size - 1, little, i - 1);
      Shifted(v, Limit(i - 1));
    }
  }

  lemma Shifted(v: nat, p: nat)
    requires p > 0
    ensures v / 256 / p == v / (256 * p)
  {
    var q, r := v / 256 / p, v / 256 % p;
    assert v == 256 * (q * p + r) + v % 256;
    var rest := 256 * r + v % 256;
    assert v == q * (256 * p) + rest && 0 <= rest < 256 * p;
    Quotient(v, 256 * p, q, rest);
  }

  lemma Quotient(v: nat, p: nat, q: nat, r: nat)
    requires v == q * p + r && r < p
    ensures v / p == q
  {
    var d := v / p - q;
    assert v == (v / p) * p + v % p;
    assert d * p == r - v % p;
    Within(d, p);
  }

  lemma Within(d: int, p: nat)
    requires -(p as int) < d * p < p
    ensures d == 0
  {
  }

  lemma {:induction false} GetBound(s: seq<byte>, little: bool)
    ensures Get(s, little) < Limit(|s|)
  {
    if s != [] {
      GetBound(if little then s[1..] else s[..|s| - 1], little);
    }
  }

  lemma {:induction false} PutGet(s: seq<byte>, little: bool)
    ensures Put(Get(s, little), |s|, little) == s
  {
    if s != [] {
      PutGet(if little then s[1..] else s[..|s| - 1], little);
    }
  }

  lemma Limits()
    ensures Limit(1) == 256 && Limit(2) == 0x1_0000 && Limit(4) == 0x1_0000_0000 && Limit(8) == 0x1_0000_0000_0000_0000
  {
    assert Limit(4) == 0x1_0000_0000;
  }

  /** The first multiple of `size` from `n` on. */
  function AlignUp(n: nat, size: nat): (r: nat)
    requires size > 0
    ensures n <= r < n + size && r % size == 0
  {
    var r := (n + size - 1) / size * size;
    AlignIs(n, size);
    r
  }

  lemma AlignIs(n: nat, size: nat)
    requires size > 0
    ensures var r := (n + size - 1) / size * size; n <= r < n + size && r % size == 0
  {
    var q := (n + size - 1) / size;
    assert q * size == size * q;
    MultipleMod(q, size);
  }

  lemma MultipleMod(q: nat, size: nat)
    requires size > 0
    ensures (q * size) % size == 0
  {
    var d := (q * size) / size - q;
    assert (q * size) % size == -(d * size);
    NoMultiple(size, d);
  }

  lemma NoMultiple(size: int, d: int)
    requires -size < d * size <= 0
    ensures d == 0
  {
  }

  function Zeros(n: nat): (s: seq<byte>)
    ensures |s| == n
  {
    seq(n, _ => 0)
  }

  datatype Stream = Stream(data: seq<byte>, rd: nat, little: bool, failed: bool) {
    predicate Valid() {
      rd <= |data|
    }

    function Length(): nat
      requires Valid()
    {
      |data| - rd
    }

    function Aligned(size: nat): Stream
      requires size > 0
    {
      this.(data := data + Zeros(AlignUp(|data|, size) - |data|))
    }

    function Wrote(v: nat, size: nat): Stream
      requires size > 0
    {
      var s := Aligned(size);
      s.(data := s.data + Put(v, size, little))
    }

    function WroteBytes(bytes: seq<byte>): Stream {
      this.(data := data + bytes)
    }

    /** A stream that has failed once gives nothing more. */
    function Read(size: nat): (r: (Stream, nat))
      requires Valid() && size > 0
      ensures r.0.Valid()
    {
      var at := AlignUp(rd, size);
      if failed then (this, 0)
      else if at + size > |data| then (this.(failed := true), 0)
      else (this.(rd := at + size), Get(data[at..at + size], little))
    }

    /** Reads without aligning; fewer than `count` bytes are given when there are no more. */
    function ReadBytes(count: nat): (r: (Stream, seq<byte>))
      requires Valid()
      ensures r.0.Valid()
    {
      if failed then (this, [])
      else if rd + count > |data| then (this.(rd := |data|, failed := true), data[rd..])
      else (this.(rd := rd + count), data[rd..rd + count])
    }

    function AlignedRd(size: nat): (s: Stream)
      requires Valid() && size > 0
      ensures s.Valid()
    {
      var at := AlignUp(rd, size);
      this.(rd := if at > |data| then |data| else at)
    }
  }

  function Mark(little: bool): seq<byte> {
    Put(0xFEFF, 2, little)
  }

  class CdrStream {
    var data: seq<byte>
    var rd: nat
    var little: bool
    var failed: bool

    function View(): Stream
      reads this
    {
      Stream(data, rd, little, failed)
    }

    constructor (bytes: seq<byte>, little: bool)
      ensures View() == Stream(bytes, 0, little, false)
    {
      data, rd, this.little, failed := bytes, 0, little, false;
    }

    method Write(v: nat, size: nat)
      requires size > 0
      modifies this
      ensures View() == old(View()).Wrote(v, size)
    {
      data := data + Zeros(AlignUp(|data|, size) - |data|) + Put(v, size, little);
    }

    method WriteBytes(bytes: seq<byte>)
      modifies this
      ensures View() == old(View()).WroteBytes(bytes)
    {
      data := data + bytes;
    }

    method WriteEndianess()
      modifies this
      ensures View() == old(View()).Wrote(0xFEFF, 2)
    {
      Write(0xFEFF, 2);
    }

    method AlignWr(size: nat)
      requires size > 0
      modifies this
      ensures View() == old(View()).Aligned(size)
    {
      data := data + Zeros(AlignUp(|data|, size) - |data|);
    }

    method Replace(v: nat, size: nat, mark: nat)
      requires mark + size <= |data|
      modifies this
      ensures View() == old(View()).(data := old(data)[..mark] + Put(v, size, little) + old(data)[mark + size..])
    {
      data := data[..mark] + Put(v, size, little) + data[mark + size..];
    }

    method Read(size: nat) returns (v: nat)
      requires View().Valid() && size > 0
      modifies this
      ensures (View(), v) == old(View()).Read(size)
      ensures View().Valid()
    {
      var at := AlignUp(rd, size);
      v := 0;
      if !failed {
        if at + size > |data| {
          failed := true;
        } else {
          v := Get(data[at..at + size], little);
          rd := at + size;
        }
      }
    }

    method ReadBytes(count: nat) returns (bytes: seq<byte>)
      requires View().Valid()
      modifies this
      ensures (View(), bytes) == old(View()).ReadBytes(count)
      ensures View().Valid()
    {
      bytes := [];
      if !failed {
        if rd + count > |data| {
          bytes := data[rd..];
          rd, failed := |data|, true;
        } else {
          bytes := data[rd..rd + count];
          rd := rd + count;
        }
      }
    }

    /** Takes over the byte order that the first two bytes show. */
    method ReadEndianess()
      requires View().Valid()
      modifies this
      ensures View() == WithOrder(old(View()))
      ensures View().Valid()
    {
      var mark := ReadBytes(2);
      if mark == Mark(true) {
        little := true;
      } else if mark == Mark(false) {
        little := false;
      } else {
        failed := true;
      }
    }

    method AlignRd(size: nat)
      requires View().Valid() && size > 0
      modifies this
      ensures View() == old(View()).AlignedRd(size)
      ensures View().Valid()
    {
      var at := AlignUp(rd, size);
      rd := if at > |data| then |data| else at;
    }
  }

  function WithOrder(s: Stream): Stream
    requires s.Valid()
  {
    var (t, mark) := s.ReadBytes(2);
    if mark == Mark(true) then t.(little := true)
    else if mark == Mark(false) then t.(little := false)
    else t.(failed := true)
  }

  /** A value is read back from where it was put. */
  lemma ReadPut(s: Stream, v: nat, size: nat)
    requires s.Valid() && size > 0 && !s.failed && v < Limit(size)
    requires var at := AlignUp(s.rd, size); at + size <= |s.data| && s.data[at..at + size] == Put(v, size, s.little)
    ensures s.Read(size) == (s.(rd := AlignUp(s.rd, size) + size), v)
  {
    GetPut(v, size, s.little);
  }
}
