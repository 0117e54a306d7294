/** Typed messages: `CDRMessage` (CDRMessage.h:93-101, 129-284) and the factory that undoes its
    `MarshalInterface` (Channel.cpp:294-306). */
module CdrMessages {
  import opened Cdr
  import opened Options

  datatype GuidT = GuidT(data1: nat, data2: nat, data3: nat, data4: seq<byte>)

  const NULL_GUID := GuidT(0, 0, 0, [0, 0, 0, 0, 0, 0, 0, 0])

  /** `any_t`; the two floating types as their bits. */
  datatype Value =
    | Void
    | Bool(b: bool)
    | Byte(n: nat)
    | Int16(i: int)
    | UInt16(n: nat)
    | Int32(i: int)
    | UInt32(n: nat)
    | Int64(i: int)
    | UInt64(n: nat)
    | Float4(n: nat)
    | Float8(n: nat)
    | String(text: seq<byte>)
    | Guid(guid: GuidT)

  predicate GuidOk(g: GuidT) {
    g.data1 < Limit(4) && g.data2 < Limit(2) && g.data3 < Limit(2) && |g.data4| == 8
  }

  /** A value of its C++ type. */
  predicate Ok(v: Value) {
    match v
    case Void => true
    case Bool(_) => true
    case Byte(n) => n < Limit(1)
    case UInt16(n) => n < Limit(2)
    case UInt32(n) => n < Limit(4)
    case Float4(n) => n < Limit(4)
    case UInt64(n) => n < Limit(8)
    case Float8(n) => n < Limit(8)
    case Int16(i) => InRange(i, 2)
    case Int32(i) => InRange(i, 4)
    case Int64(i) => InRange(i, 8)
    case String(text) => |text| < Limit(4)
    case Guid(g) => GuidOk(g)
  }

  predicate InRange(i: int, size: nat) {
    0 <= 2 * i + Limit(size) && 2 * i < Limit(size)
  }

  lemma Ranges(i: int)
    ensures InRange(i, 2) <==> -0x8000 <= i < 0x8000
    ensures InRange(i, 4) <==> -0x8000_0000 <= i < 0x8000_0000
    ensures InRange(i, 8) <==> -0x8000_0000_0000_0000 <= i < 0x8000_0000_0000_0000
  {
    Limits();
  }

  /** Two's complement. */
  function Bits(i: int, size: nat): nat
    requires InRange(i, size)
  {
    if i < 0 then i + Limit(size) else i
  }

  function Signed(n: nat, size: nat): int {
    if 2 * n < Limit(size) then n else n - Limit(size)
  }

  function TypeOf(v: Value): byte {
    match v
    case Void => 0
    case Bool(_) => 1
    case Byte(_) => 2
    case Int16(_) => 3
    case UInt16(_) => 4
    case Int32(_) => 5
    case UInt32(_) => 6
    case Int64(_) => 7
    case UInt64(_) => 8
    case Float4(_) => 9
    case Float8(_) => 10
    case String(_) => 11
    case Guid(_) => 12
  }

  // ---- Values on a stream ----

  function WroteGuid(s: Stream, g: GuidT): Stream {
    if g == NULL_GUID then s.Wrote(0, 1)
    else s.Wrote(1, 1).Wrote(g.data1, 4).Wrote(g.data2, 2).Wrote(g.data3, 2).WroteBytes(g.data4)
  }

  function WroteBody(s: Stream, v: Value): Stream
    requires Ok(v)
  {
    match v
    case Void => s
    case Bool(b) => s.Wrote(if b then 1 else 0, 1)
    case Byte(n) => s.Wrote(n, 1)
    case Int16(i) => s.Wrote(Bits(i, 2), 2)
    case UInt16(n) => s.Wrote(n, 2)
    case Int32(i) => s.Wrote(Bits(i, 4), 4)
    case UInt32(n) => s.Wrote(n, 4)
    case Int64(i) => s.Wrote(Bits(i, 8), 8)
    case UInt64(n) => s.Wrote(n, 8)
    case Float4(n) => s.Wrote(n, 4)
    case Float8(n) => s.Wrote(n, 8)
    case String(text) => s.Wrote(|text|, 4).WroteBytes(text)
    case Guid(g) => WroteGuid(s, g)
  }

  function WroteValue(s: Stream, v: Value): Stream
    requires Ok(v)
  {
    WroteBody(s.Wrote(TypeOf(v), 1), v)
  }

  function UpToNul(text: seq<byte>): seq<byte> {
    if text == [] || text[0] == 0 then [] else [text[0]] + UpToNul(text[1..])
  }

  function ReadGuid(s: Stream): (r: (Stream, GuidT))
    requires s.Valid()
    ensures r.0.Valid()
  {
    var (s0, flag) := s.Read(1);
    if flag == 0 then (s0, NULL_GUID)
    else
      var (s1, data1) := s0.Read(4);
      var (s2, data2) := s1.Read(2);
      var (s3, data3) := s2.Read(2);
      var (s4, data4) := s3.ReadBytes(8);
      (s4, GuidT(data1, data2, data3, data4))
  }

  function ReadString(s: Stream): (r: (Stream, seq<byte>))
    requires s.Valid()
    ensures r.0.Valid()
  {
    var (s1, count) := s.Read(4);
    var (s2, text) := s1.ReadBytes(count);
    (s2, UpToNul(text))
  }

  function ReadWord(s: Stream, code: nat): (r: (Stream, Value))
    requires s.Valid()
    ensures r.0.Valid()
  {
    if code == 1 then var (t, n) := s.Read(1); (t, Bool(n != 0))
    else if code == 2 then var (t, n) := s.Read(1); (t, Byte(n))
    else if code == 3 then var (t, n) := s.Read(2); (t, Int16(Signed(n, 2)))
    else if code == 4 then var (t, n) := s.Read(2); (t, UInt16(n))
    else if code == 5 then var (t, n) := s.Read(4); (t, Int32(Signed(n, 4)))
    else if code == 6 then var (t, n) := s.Read(4); (t, UInt32(n))
    else if code == 7 then var (t, n) := s.Read(8); (t, Int64(Signed(n, 8)))
    else if code == 8 then var (t, n) := s.Read(8); (t, UInt64(n))
    else if code == 9 then var (t, n) := s.Read(4); (t, Float4(n))
    else if code == 10 then var (t, n) := s.Read(8); (t, Float8(n))
    else (s, Void)
  }

  function ReadBody(s: Stream, code: nat): (r: (Stream, Value))
    requires s.Valid()
    ensures r.0.Valid()
  {
    if code == 11 then var (t, text) := ReadString(s); (t, String(text))
    else if code == 12 then var (t, g) := ReadGuid(s); (t, Guid(g))
    else ReadWord(s, code)
  }

  /** What `ReadValue` leaves, and gives unless the stream has failed, when it throws. */
  function ReadValue(s: Stream): (r: (Stream, Value))
    requires s.Valid()
    ensures r.0.Valid()
  {
    var (t, code) := s.Read(1);
    ReadBody(t, code)
  }

  // ---- Calls on a message ----

  /** One call of the interface that writes, and what its counterpart reads. */
  datatype Item = Any(value: Value) | Bytes(bytes: seq<byte>) | ArrayStart(count: nat)

  /** The counterpart: it knows only how many bytes the caller has room for. */
  datatype Ask = ForAny | ForBytes(room: nat) | ForArray

  predicate ItemOk(item: Item) {
    match item
    case Any(v) => Ok(v)
    case Bytes(bytes) => |bytes| < Limit(4)
    case ArrayStart(count) => count < Limit(4)
  }

  function AskFor(item: Item): Ask {
    match item
    case Any(_) => ForAny
    case Bytes(bytes) => ForBytes(|bytes|)
    case ArrayStart(_) => ForArray
  }

  function WroteItem(s: Stream, item: Item): Stream
    requires ItemOk(item)
  {
    match item
    case Any(v) => WroteValue(s, v)
    case Bytes(bytes) => s.Wrote(|bytes|, 4).WroteBytes(bytes)
    case ArrayStart(count) => s.Wrote(count, 4)
  }

  /** `ReadBytes` refuses more bytes than there is room for. */
  function ReadItem(s: Stream, ask: Ask): (r: (Stream, Option<Item>))
    requires s.Valid()
    ensures r.0.Valid()
    ensures r.1.Some? ==> !r.0.failed && (ask.ForAny? <==> r.1.value.Any?) && (ask.ForBytes? <==> r.1.value.Bytes?)
  {
    match ask
    case ForAny =>
      var (t, v) := ReadValue(s);
      (t, if t.failed then None else Some(Any(v)))
    case ForArray =>
      var (t, count) := s.Read(4);
      (t, if t.failed then None else Some(ArrayStart(count)))
    case ForBytes(room) =>
      var (s1, count) := s.Read(4);
      if s1.failed || count > room then (s1, None)
      else
        var (t, bytes) := s1.ReadBytes(count);
        (t, if t.failed then None else Some(Bytes(bytes)))
  }

  function WroteAll(s: Stream, items: seq<Item>): Stream
    requires forall i <- items :: ItemOk(i)
    decreases |items|
  {
    if items == [] then s else WroteAll(WroteItem(s, items[0]), items[1..])
  }

  /** Reads until one call throws. */
  function ReadAll(s: Stream, asks: seq<Ask>): (Stream, seq<Item>)
    requires s.Valid()
    decreases |asks|
  {
    if asks == [] then (s, [])
    else
      var (t, item) := ReadItem(s, asks[0]);
      match item
      case None => (t, [])
      case Some(i) => var (u, rest) := ReadAll(t, asks[1..]); (u, [i] + rest)
  }

  function Asks(items: seq<Item>): seq<Ask> {
    if items == [] then [] else [AskFor(items[0])] + Asks(items[1..])
  }

  class CDRMessage {
    const stream: CdrStream

    constructor (stream: CdrStream)
      ensures this.stream == stream
    {
      this.stream := stream;
    }

    method WriteGuid(g: GuidT)
      requires GuidOk(g)
      modifies stream
      ensures stream.View() == WroteGuid(old(stream.View()), g)
    {
      if g == NULL_GUID {
        stream.Write(0, 1);
      } else {
        stream.Write(1, 1);
        stream.Write(g.data1, 4);
        stream.Write(g.data2, 2);
        stream.Write(g.data3, 2);
        stream.WriteBytes(g.data4);
      }
    }

    method WriteValue(v: Value)
      requires Ok(v)
      modifies stream
      ensures stream.View() == WroteValue(old(stream.View()), v)
    {
      hide Stream.Wrote, Stream.WroteBytes;
      stream.Write(TypeOf(v), 1);
      match v {
        case Void =>
        case Bool(b) => stream.Write(if b then 1 else 0, 1);
        case Byte(n) => stream.Write(n, 1);
        case Int16(i) => stream.Write(Bits(i, 2), 2);
        case UInt16(n) => stream.Write(n, 2);
        case Int32(i) => stream.Write(Bits(i, 4), 4);
        case UInt32(n) => stream.Write(n, 4);
        case Int64(i) => stream.Write(Bits(i, 8), 8);
        case UInt64(n) => stream.Write(n, 8);
        case Float4(n) => stream.Write(n, 4);
        case Float8(n) => stream.Write(n, 8);
        case String(text) =>
          stream.Write(|text|, 4);
          stream.WriteBytes(text);
        case Guid(g) => WriteGuid(g);
      }
    }

    method WriteBytes(bytes: seq<byte>)
      requires |bytes| < Limit(4)
      modifies stream
      ensures stream.View() == WroteItem(old(stream.View()), Bytes(bytes))
    {
      stream.Write(|bytes|, 4);
      stream.WriteBytes(bytes);
    }

    method ReadGuidValue() returns (g: GuidT)
      requires stream.View().Valid()
      modifies stream
      ensures (stream.View(), g) == ReadGuid(old(stream.View()))
      ensures stream.View().Valid()
    {
      var flag := stream.Read(1);
      if flag == 0 {
        return NULL_GUID;
      }
      var data1 := stream.Read(4);
      var data2 := stream.Read(2);
      var data3 := stream.Read(2);
      var data4 := stream.ReadBytes(8);
      g := GuidT(data1, data2, data3, data4);
    }

    /** `None` stands for the exception. */
    method ReadAny() returns (v: Option<Value>)
      requires stream.View().Valid()
      modifies stream
      ensures (stream.View(), if v.None? then None else Some(Any(v.value))) == ReadItem(old(stream.View()), ForAny)
      ensures stream.View().Valid()
    {
      hide Stream.Read, Stream.ReadBytes, ReadGuid;
      var code := stream.Read(1);
      var r := Void;
      if code == 11 {
        var count := stream.Read(4);
        var text := stream.ReadBytes(count);
        r := String(UpToNul(text));
      } else if code == 12 {
        var g := ReadGuidValue();
        r := Guid(g);
      } else {
        r := ReadScalar(code);
      }
      v := if stream.failed then None else Some(r);
    }

    method ReadScalar(code: nat) returns (v: Value)
      requires stream.View().Valid()
      modifies stream
      ensures (stream.View(), v) == ReadWord(old(stream.View()), code)
      ensures stream.View().Valid()
    {
      hide Stream.Read;
      var n := 0;
      if code == 1 || code == 2 {
        n := stream.Read(1);
        v := if code == 1 then Bool(n != 0) else Byte(n);
      } else if code == 3 || code == 4 {
        n := stream.Read(2);
        v := if code == 3 then Int16(Signed(n, 2)) else UInt16(n);
      } else if code == 5 || code == 6 || code == 9 {
        n := stream.Read(4);
        v := if code == 5 then Int32(Signed(n, 4)) else if code == 6 then UInt32(n) else Float4(n);
      } else if code == 7 || code == 8 || code == 10 {
        n := stream.Read(8);
        v := if code == 7 then Int64(Signed(n, 8)) else if code == 8 then UInt64(n) else Float8(n);
      } else {
        v := Void;
      }
    }

    method ReadBytes(room: nat) returns (bytes: Option<seq<byte>>)
      requires stream.View().Valid()
      modifies stream
      ensures (stream.View(), if bytes.None? then None else Some(Bytes(bytes.value))) ==
              ReadItem(old(stream.View()), ForBytes(room))
      ensures stream.View().Valid()
    {
      var count := stream.Read(4);
      if stream.failed || count > room {
        return None;
      }
      var read := stream.ReadBytes(count);
      bytes := if stream.failed then None else Some(read);
    }

    /** What is left of this message, as a count and bytes in another one; false when it is
        too long. */
    method MarshalInterface(other: CDRMessage) returns (ok: bool)
      requires stream.View().Valid() && other.stream != stream
      modifies other.stream
      ensures ok == (stream.View().Length() < Limit(4))
      ensures ok ==> other.stream.View() == WroteAll(old(other.stream.View()), Marshalled(stream.View()))
      ensures !ok ==> other.stream.View() == old(other.stream.View())
    {
      var left := stream.data[stream.rd..];
      ok := |left| < Limit(4);
      if ok {
        other.WriteValue(UInt32(|left|));
        other.WriteBytes(left);
        TwoItems(old(other.stream.View()), UInt32(|left|), left);
      }
    }

    /** The factory: a new stream in the byte order of this machine around the bytes. */
    static method UnmarshalInterface(other: CDRMessage, host: bool) returns (m: Option<CDRMessage>)
      requires other.stream.View().Valid()
      modifies other.stream
      ensures m.Some? ==> fresh(m.value) && fresh(m.value.stream)
      ensures (other.stream.View(), if m.None? then None else Some(m.value.stream.View())) ==
              Unmarshalled(old(other.stream.View()), host)
    {
      hide ReadItem;
      var len := other.ReadAny();
      if len.None? || !len.value.UInt32? {
        return None;
      }
      var bytes := other.ReadBytes(len.value.n);
      if bytes.None? {
        return None;
      }
      var stream := new CdrStream(bytes.value, host);
      var message := new CDRMessage(stream);
      m := Some(message);
    }
  }

  // ---- Marshalling a message into a message ----

  function Marshalled(s: Stream): seq<Item>
    requires s.Valid()
  {
    [Any(UInt32(s.Length())), Bytes(s.data[s.rd..])]
  }

  function Unmarshalled(outer: Stream, host: bool): (Stream, Option<Stream>)
    requires outer.Valid()
  {
    var (o1, len) := ReadItem(outer, ForAny);
    if len.None? || !len.value.value.UInt32? then (o1, None)
    else
      var (o2, bytes) := ReadItem(o1, ForBytes(len.value.value.n));
      (o2, if bytes.None? then None else Some(Stream(bytes.value.bytes, 0, host, false)))
  }

  lemma TwoItems(s: Stream, v: Value, bytes: seq<byte>)
    requires Ok(v) && |bytes| < Limit(4)
    ensures WroteAll(s, [Any(v), Bytes(bytes)]) == WroteItem(WroteItem(s, Any(v)), Bytes(bytes))
  {
    hide WroteItem, Ok;
    var items := [Any(v), Bytes(bytes)];
    assert items[1..] == [Bytes(bytes)];
    assert items[1..][1..] == [];
    assert WroteAll(WroteItem(WroteItem(s, Any(v)), Bytes(bytes)), []) == WroteItem(WroteItem(s, Any(v)), Bytes(bytes));
  }

  // ---- What is written is read back ----

  /** `u` holds everything that stands in `t`, and its read position is where `s` ends. */
  predicate Follows(u: Stream, s: Stream, t: Stream) {
    && u.Valid() && !u.failed && u.little == s.little == t.little
    && u.rd == |s.data| && s.data <= t.data && t.data <= u.data
  }

  /** The read position after what `t` holds. */
  function After(u: Stream, t: Stream): Stream {
    u.(rd := |t.data|)
  }

  predicate Extends(s: Stream, t: Stream) {
    s.data <= t.data && s.little == t.little
  }

  lemma Extend(a: Stream, b: Stream, c: Stream)
    requires Extends(a, b) && Extends(b, c)
    ensures Extends(a, c)
  {
  }

  lemma WordGrows(s: Stream, v: nat, size: nat)
    requires size > 0
    ensures Extends(s, s.Wrote(v, size))
  {
  }

  lemma BytesGrow(s: Stream, bytes: seq<byte>)
    ensures Extends(s, s.WroteBytes(bytes))
  {
  }

  /** A word is read back, and what follows it stands next. */
  lemma WordBack(u: Stream, s: Stream, v: nat, size: nat, t: Stream)
    requires size > 0 && v < Limit(size) && Follows(u, s, t) && Extends(s.Wrote(v, size), t)
    ensures u.Read(size) == (After(u, s.Wrote(v, size)), v)
    ensures Follows(After(u, s.Wrote(v, size)), s.Wrote(v, size), t)
  {
    hide Put, AlignUp;
    var at := AlignUp(u.rd, size);
    var w := s.Wrote(v, size);
    assert w.data[at..at + size] == Put(v, size, s.little);
    assert u.data[at..at + size] == w.data[at..at + size];
    ReadPut(u, v, size);
  }

  lemma BytesBack(u: Stream, s: Stream, bytes: seq<byte>, t: Stream)
    requires Follows(u, s, t) && Extends(s.WroteBytes(bytes), t)
    ensures u.ReadBytes(|bytes|) == (After(u, s.WroteBytes(bytes)), bytes)
    ensures Follows(After(u, s.WroteBytes(bytes)), s.WroteBytes(bytes), t)
  {
    var w := s.WroteBytes(bytes);
    assert u.data[u.rd..u.rd + |bytes|] == w.data[u.rd..];
  }

  lemma {:induction false} UpToNulIs(text: seq<byte>)
    ensures UpToNul(text) == text <==> 0 !in text
  {
    if text != [] && text[0] != 0 {
      UpToNulIs(text[1..]);
      assert text == [text[0]] + text[1..];
    }
  }

  /** A string is read up to its first NUL. */
  lemma {:induction false} UpToNulEnds(text: seq<byte>)
    ensures var r := UpToNul(text); r <= text && 0 !in r && (|r| < |text| ==> text[|r|] == 0)
  {
    if text != [] && text[0] != 0 {
      UpToNulEnds(text[1..]);
      assert text == [text[0]] + text[1..];
    }
  }

  lemma SignedBits(i: int, size: nat)
    requires InRange(i, size)
    ensures Bits(i, size) < Limit(size) && Signed(Bits(i, size), size) == i
  {
  }

  lemma GuidBack(u: Stream, s: Stream, g: GuidT, t: Stream)
    requires GuidOk(g) && Follows(u, s, t) && Extends(WroteGuid(s, g), t)
    ensures ReadGuid(u) == (After(u, WroteGuid(s, g)), g) && Extends(s, WroteGuid(s, g))
    ensures Follows(After(u, WroteGuid(s, g)), WroteGuid(s, g), t)
  {
    hide Stream.Wrote, Stream.WroteBytes, Stream.Read, Stream.ReadBytes, Follows, Extends, Limit;
    Limits();
    if g == NULL_GUID {
      WordGrows(s, 0, 1);
      WordBack(u, s, 0, 1, t);
    } else {
      var s0 := s.Wrote(1, 1);
      var s1 := s0.Wrote(g.data1, 4);
      var s2 := s1.Wrote(g.data2, 2);
      var s3 := s2.Wrote(g.data3, 2);
      var s4 := s3.WroteBytes(g.data4);
      BytesGrow(s3, g.data4);
      Extend(s3, s4, t);
      WordGrows(s2, g.data3, 2);
      Extend(s2, s3, t);
      WordGrows(s1, g.data2, 2);
      Extend(s1, s2, t);
      WordGrows(s0, g.data1, 4);
      Extend(s0, s1, t);
      WordGrows(s, 1, 1);
      WordBack(u, s, 1, 1, t);
      WordBack(After(u, s0), s0, g.data1, 4, t);
      WordBack(After(u, s1), s1, g.data2, 2, t);
      WordBack(After(u, s2), s2, g.data3, 2, t);
      BytesBack(After(u, s3), s3, g.data4, t);
      Extend(s, s0, s1);
      Extend(s, s1, s2);
      Extend(s, s2, s3);
      Extend(s, s3, s4);
    }
  }

  lemma StringBack(u: Stream, s: Stream, text: seq<byte>, t: Stream)
    requires |text| < Limit(4) && Follows(u, s, t)
    requires Extends(s.Wrote(|text|, 4).WroteBytes(text), t)
    ensures var w := s.Wrote(|text|, 4).WroteBytes(text);
            ReadString(u) == (After(u, w), UpToNul(text)) && Extends(s, w) && Follows(After(u, w), w, t)
  {
    hide Stream.Wrote, Stream.WroteBytes, Stream.Read, Stream.ReadBytes, Follows, Extends, Limit, UpToNul;
    var s1 := s.Wrote(|text|, 4);
    var s2 := s1.WroteBytes(text);
    BytesGrow(s1, text);
    Extend(s1, s2, t);
    WordGrows(s, |text|, 4);
    WordBack(u, s, |text|, 4, t);
    BytesBack(After(u, s1), s1, text, t);
    Extend(s, s1, s2);
  }

  /** Strings come back up to their first NUL, everything else as it was. */
  function Trimmed(v: Value): Value {
    if v.String? then String(UpToNul(v.text)) else v
  }

  /** The bits and size of a value that is one word. */
  function WordOf(v: Value): (nat, nat)
    requires Ok(v)
  {
    match v
    case Bool(b) => (if b then 1 else 0, 1)
    case Byte(n) => (n, 1)
    case Int16(i) => (Bits(i, 2), 2)
    case UInt16(n) => (n, 2)
    case Int32(i) => (Bits(i, 4), 4)
    case UInt32(n) => (n, 4)
    case Int64(i) => (Bits(i, 8), 8)
    case UInt64(n) => (n, 8)
    case Float4(n) => (n, 4)
    case Float8(n) => (n, 8)
    case _ => (0, 0)
  }

  lemma WordOfValue(s: Stream, u: Stream, v: Value)
    requires Ok(v) && u.Valid() && !v.Void? && !v.String? && !v.Guid?
    ensures var (n, size) := WordOf(v);
            && size > 0 && n < Limit(size) && WroteBody(s, v) == s.Wrote(n, size)
            && (u.Read(size).1 == n ==> ReadBody(u, TypeOf(v)) == (u.Read(size).0, v))
  {
    hide Stream.Wrote, Stream.Read, Limit;
    Limits();
    match v {
      case Int16(i) => SignedBits(i, 2);
      case Int32(i) => SignedBits(i, 4);
      case Int64(i) => SignedBits(i, 8);
      case _ =>
    }
  }

  lemma BodyBack(u: Stream, s: Stream, v: Value, t: Stream)
    requires Ok(v) && Follows(u, s, t) && Extends(WroteBody(s, v), t)
    ensures ReadBody(u, TypeOf(v)) == (After(u, WroteBody(s, v)), Trimmed(v)) && Extends(s, WroteBody(s, v))
    ensures Follows(After(u, WroteBody(s, v)), WroteBody(s, v), t)
  {
    match v
    case Void =>
    case String(text) =>
      hide Stream.Wrote, Stream.WroteBytes, Stream.Read, Stream.ReadBytes, Follows, Extends, Limit, UpToNul, ReadString;
      StringBack(u, s, text, t);
    case Guid(g) =>
      hide Stream.Wrote, Stream.WroteBytes, Stream.Read, Stream.ReadBytes, Follows, Extends, Limit, ReadGuid, WroteGuid;
      GuidBack(u, s, g, t);
    case _ =>
      hide Stream.Wrote, Stream.Read, Follows, Extends, Limit, WroteBody, ReadBody, WordOf;
      WordOfValue(s, u, v);
      var (n, size) := WordOf(v);
      WordGrows(s, n, size);
      WordBack(u, s, n, size, t);
  }

  lemma ValueBack(u: Stream, s: Stream, v: Value, t: Stream)
    requires Ok(v) && Follows(u, s, t) && Extends(WroteValue(s, v), t)
    ensures ReadValue(u) == (After(u, WroteValue(s, v)), Trimmed(v)) && Extends(s, WroteValue(s, v))
    ensures Follows(After(u, WroteValue(s, v)), WroteValue(s, v), t)
  {
    hide Stream.Wrote, Stream.Read, Follows, Extends, Limit, WroteBody, ReadBody, Trimmed, Ok;
    Limits();
    var s1 := s.Wrote(TypeOf(v), 1);
    BodyGrows(s1, v);
    Extend(s1, WroteBody(s1, v), t);
    WordGrows(s, TypeOf(v), 1);
    WordBack(u, s, TypeOf(v), 1, t);
    BodyBack(After(u, s1), s1, v, t);
    Extend(s, s1, WroteBody(s1, v));
  }

  lemma BodyGrows(s: Stream, v: Value)
    requires Ok(v)
    ensures Extends(s, WroteBody(s, v))
  {
    hide Stream.Wrote, Stream.WroteBytes, WroteBody;
    match v
    case Void => VoidGrows(s);
    case String(text) =>
      WordGrows(s, |text|, 4);
      BytesGrow(s.Wrote(|text|, 4), text);
      Extend(s, s.Wrote(|text|, 4), s.Wrote(|text|, 4).WroteBytes(text));
      StringIs(s, text);
    case Guid(g) => GuidGrows(s, g);
    case _ =>
      hide Stream.Read, WordOf;
      WordOfValue(s, Stream([], 0, true, false), v);
      WordGrows(s, WordOf(v).0, WordOf(v).1);
  }

  lemma VoidGrows(s: Stream)
    ensures WroteBody(s, Void) == s && Extends(s, s)
  {
  }

  lemma StringIs(s: Stream, text: seq<byte>)
    requires |text| < Limit(4)
    ensures WroteBody(s, String(text)) == s.Wrote(|text|, 4).WroteBytes(text)
  {
  }

  lemma GuidGrows(s: Stream, g: GuidT)
    requires GuidOk(g)
    ensures WroteBody(s, Guid(g)) == WroteGuid(s, g) && Extends(s, WroteGuid(s, g))
  {
    hide Stream.Wrote, Stream.WroteBytes, Extends;
    if g == NULL_GUID {
      WordGrows(s, 0, 1);
    } else {
      var s0 := s.Wrote(1, 1);
      var s1 := s0.Wrote(g.data1, 4);
      var s2 := s1.Wrote(g.data2, 2);
      var s3 := s2.Wrote(g.data3, 2);
      var s4 := s3.WroteBytes(g.data4);
      WordGrows(s, 1, 1);
      WordGrows(s0, g.data1, 4);
      Extend(s, s0, s1);
      WordGrows(s1, g.data2, 2);
      Extend(s, s1, s2);
      WordGrows(s2, g.data3, 2);
      Extend(s, s2, s3);
      BytesGrow(s3, g.data4);
      Extend(s, s3, s4);
    }
  }

  function TrimmedItem(item: Item): Item {
    if item.Any? then Any(Trimmed(item.value)) else item
  }

  lemma ItemGrows(s: Stream, item: Item)
    requires ItemOk(item)
    ensures Extends(s, WroteItem(s, item))
  {
    hide Stream.Wrote, Stream.WroteBytes, Extends, WroteBody, Ok;
    match item
    case Any(v) =>
      WordGrows(s, TypeOf(v), 1);
      BodyGrows(s.Wrote(TypeOf(v), 1), v);
      Extend(s, s.Wrote(TypeOf(v), 1), WroteValue(s, v));
    case Bytes(bytes) =>
      WordGrows(s, |bytes|, 4);
      BytesGrow(s.Wrote(|bytes|, 4), bytes);
      Extend(s, s.Wrote(|bytes|, 4), s.Wrote(|bytes|, 4).WroteBytes(bytes));
    case ArrayStart(count) => WordGrows(s, count, 4);
  }

  /** Bytes are read back exactly if the caller has room for them. */
  lemma BytesNeedRoom(u: Stream, s: Stream, bytes: seq<byte>, room: nat, t: Stream)
    requires ItemOk(Bytes(bytes)) && Follows(u, s, t) && Extends(WroteItem(s, Bytes(bytes)), t)
    ensures
      var (r, item) := ReadItem(u, ForBytes(room));
      item == (if |bytes| <= room then Some(Bytes(bytes)) else None)
      && (item.Some? ==> r == After(u, WroteItem(s, Bytes(bytes))))
  {
    hide Stream.Wrote, Stream.WroteBytes, Stream.Read, Stream.ReadBytes, Follows, Extends, Limit;
    var s1 := s.Wrote(|bytes|, 4);
    NotFailed(u, s, t);
    BytesGrow(s1, bytes);
    Extend(s1, s1.WroteBytes(bytes), t);
    WordBack(u, s, |bytes|, 4, t);
    BytesBack(After(u, s1), s1, bytes, t);
    NotFailed(After(u, s1), s1, t);
    NotFailed(After(u, s1.WroteBytes(bytes)), s1.WroteBytes(bytes), t);
  }

  lemma NotFailed(u: Stream, s: Stream, t: Stream)
    requires Follows(u, s, t)
    ensures !u.failed && u.Valid() && u.little == s.little && Extends(s, t)
  {
  }

  lemma ItemBack(u: Stream, s: Stream, item: Item, t: Stream)
    requires ItemOk(item) && Follows(u, s, t) && Extends(WroteItem(s, item), t)
    ensures ReadItem(u, AskFor(item)) == (After(u, WroteItem(s, item)), Some(TrimmedItem(item)))
    ensures Follows(After(u, WroteItem(s, item)), WroteItem(s, item), t)
  {
    hide Stream.Wrote, Stream.WroteBytes, Stream.Read, Stream.ReadBytes, Follows, Extends, WroteValue, ReadValue, Trimmed, Ok,
      Limit;
    NotFailed(u, s, t);
    match item
    case Any(v) => ValueBack(u, s, v, t);
    case Bytes(bytes) =>
      var s1 := s.Wrote(|bytes|, 4);
      BytesGrow(s1, bytes);
      Extend(s1, s1.WroteBytes(bytes), t);
      WordBack(u, s, |bytes|, 4, t);
      NotFailed(After(u, s1), s1, t);
      BytesBack(After(u, s1), s1, bytes, t);
    case ArrayStart(count) => WordBack(u, s, count, 4, t);
  }

  lemma {:induction false} AllGrow(s: Stream, items: seq<Item>)
    requires forall i <- items :: ItemOk(i)
    ensures Extends(s, WroteAll(s, items))
    decreases |items|
  {
    hide WroteItem;
    if items != [] {
      ItemGrows(s, items[0]);
      AllGrow(WroteItem(s, items[0]), items[1..]);
      Extend(s, WroteItem(s, items[0]), WroteAll(s, items));
    }
  }

  function TrimmedAll(items: seq<Item>): seq<Item> {
    if items == [] then [] else [TrimmedItem(items[0])] + TrimmedAll(items[1..])
  }

  lemma {:induction false} AllBack(u: Stream, s: Stream, items: seq<Item>)
    requires (forall i <- items :: ItemOk(i)) && Follows(u, s, WroteAll(s, items))
    ensures ReadAll(u, Asks(items)) == (After(u, WroteAll(s, items)), TrimmedAll(items))
    decreases |items|
  {
    hide WroteItem, ReadItem, Extends, TrimmedItem, ItemOk;
    if items != [] {
      AllGrow(WroteItem(s, items[0]), items[1..]);
      ItemBack(u, s, items[0], WroteAll(s, items));
      AllBack(After(u, WroteItem(s, items[0])), WroteItem(s, items[0]), items[1..]);
    }
  }

  predicate NulFree(item: Item) {
    item.Any? && item.value.String? ==> 0 !in item.value.text
  }

  lemma {:induction false} TrimmedAllIs(items: seq<Item>)
    ensures |TrimmedAll(items)| == |items|
    ensures TrimmedAll(items) == items <==> forall i <- items :: NulFree(i)
  {
    if items != [] {
      TrimmedAllIs(items[1..]);
      var rest := TrimmedAll(items[1..]);
      assert items == [items[0]] + items[1..];
      assert TrimmedAll(items)[1..] == rest;
      if items[0].Any? && items[0].value.String? {
        UpToNulIs(items[0].value.text);
      }
      assert TrimmedItem(items[0]) == items[0] <==> NulFree(items[0]);
    }
  }

  /** Any sequence of writes, on any stream, is read back by the matching reads up to the end;
      the values are the same exactly when no string has a NUL. */
  lemma RoundTrip(s: Stream, items: seq<Item>)
    requires (forall i <- items :: ItemOk(i)) && !s.failed
    ensures var t := WroteAll(s, items);
            && |s.data| <= |t.data|
            && ReadAll(Stream(t.data, |s.data|, s.little, false), Asks(items)) ==
               (Stream(t.data, |t.data|, s.little, false), TrimmedAll(items))
    ensures TrimmedAll(items) == items <==> forall i <- items :: NulFree(i)
  {
    hide ReadAll, WroteAll, ItemOk, NulFree;
    AllGrow(s, items);
    var t := WroteAll(s, items);
    AllBack(Stream(t.data, |s.data|, s.little, false), s, items);
    TrimmedAllIs(items);
  }

  // ---- A message marshalled into another ----

  /** The stream that begins at byte `r`. */
  function Rebased(u: Stream, r: nat): Stream
    requires r <= u.rd <= |u.data|
  {
    Stream(u.data[r..], u.rd - r, u.little, u.failed)
  }

  lemma RebasedTwofold(n: int, r: int, x: int, y: int)
    requires n - r <= x < n - r + 2 && n <= y < n + 2 && r % 8 == 0 && x % 2 == 0 && y % 2 == 0
    ensures x == y - r
  {
    var q, i, j := r / 8, x / 2, y / 2;
    var e := i - j + 4 * q;
    assert x - (y - r) == 2 * e by { assert r == 8 * q && x == 2 * i && y == 2 * j; }
    assert -2 < 2 * e < 2;
  }

  lemma RebasedFourfold(n: int, r: int, x: int, y: int)
    requires n - r <= x < n - r + 4 && n <= y < n + 4 && r % 8 == 0 && x % 4 == 0 && y % 4 == 0
    ensures x == y - r
  {
    var q, i, j := r / 8, x / 4, y / 4;
    var e := i - j + 2 * q;
    assert x - (y - r) == 4 * e by { assert r == 8 * q && x == 4 * i && y == 4 * j; }
    assert -4 < 4 * e < 4;
  }

  lemma RebasedEightfold(n: int, r: int, x: int, y: int)
    requires n - r <= x < n - r + 8 && n <= y < n + 8 && r % 8 == 0 && x % 8 == 0 && y % 8 == 0
    ensures x == y - r
  {
    var q, i, j := r / 8, x / 8, y / 8;
    var e := i - j + 1 * q;
    assert x - (y - r) == 8 * e by { assert r == 8 * q && x == 8 * i && y == 8 * j; }
    assert -8 < 8 * e < 8;
  }

  lemma RebasedAlign(n: nat, r: nat, size: nat)
    requires r <= n && r % 8 == 0 && (size == 1 || size == 2 || size == 4 || size == 8)
    ensures AlignUp(n - r, size) == AlignUp(n, size) - r
  {
    hide AlignUp;
    var x, y := AlignUp(n - r, size), AlignUp(n, size);
    if size == 2 {
      RebasedTwofold(n, r, x, y);
    } else if size == 4 {
      RebasedFourfold(n, r, x, y);
    } else if size == 8 {
      RebasedEightfold(n, r, x, y);
    }
  }

  lemma RebasedSlice(data: seq<byte>, r: nat, from: nat, to: nat)
    requires r <= from <= to <= |data|
    ensures data[r..][from - r..to - r] == data[from..to]
  {
  }

  lemma RebasedRead(u: Stream, r: nat, size: nat)
    requires r <= u.rd && u.Valid() && r % 8 == 0 && (size == 1 || size == 2 || size == 4 || size == 8)
    ensures var (t, v) := u.Read(size);
            r <= t.rd && Rebased(u, r).Read(size) == (Rebased(t, r), v)
  {
    hide AlignUp, Get;
    RebasedAlign(u.rd, r, size);
    var at := AlignUp(u.rd, size);
    if at + size <= |u.data| {
      RebasedSlice(u.data, r, at, at + size);
    }
  }

  lemma RebasedBytes(u: Stream, r: nat, count: nat)
    requires r <= u.rd && u.Valid()
    ensures var (t, v) := u.ReadBytes(count);
            r <= t.rd && Rebased(u, r).ReadBytes(count) == (Rebased(t, r), v)
  {
    if u.rd + count <= |u.data| {
      assert u.data[r..][u.rd - r..u.rd - r + count] == u.data[u.rd..u.rd + count];
    } else {
      assert u.data[r..][u.rd - r..] == u.data[u.rd..];
    }
  }

  lemma RebasedGuid(u: Stream, r: nat)
    requires r <= u.rd && u.Valid() && r % 8 == 0
    ensures var (t, v) := ReadGuid(u);
            r <= t.rd && ReadGuid(Rebased(u, r)) == (Rebased(t, r), v)
  {
    hide Stream.Read, Stream.ReadBytes, Rebased;
    var (s0, flag) := u.Read(1);
    var (s1, data1) := s0.Read(4);
    var (s2, data2) := s1.Read(2);
    var (s3, data3) := s2.Read(2);
    RebasedRead(u, r, 1);
    RebasedRead(s0, r, 4);
    RebasedRead(s1, r, 2);
    RebasedRead(s2, r, 2);
    RebasedBytes(s3, r, 8);
  }

  lemma RebasedBody(u: Stream, r: nat, code: nat)
    requires r <= u.rd && u.Valid() && r % 8 == 0
    ensures var (t, v) := ReadBody(u, code);
            r <= t.rd && ReadBody(Rebased(u, r), code) == (Rebased(t, r), v)
  {
    hide Stream.Read, Stream.ReadBytes, Rebased, ReadGuid;
    if code == 11 {
      RebasedRead(u, r, 4);
      RebasedBytes(u.Read(4).0, r, u.Read(4).1);
    } else if code == 12 {
      RebasedGuid(u, r);
    } else {
      RebasedRead(u, r, 1);
      RebasedRead(u, r, 2);
      RebasedRead(u, r, 4);
      RebasedRead(u, r, 8);
    }
  }

  lemma RebasedItem(u: Stream, r: nat, ask: Ask)
    requires r <= u.rd && u.Valid() && r % 8 == 0
    ensures var (t, item) := ReadItem(u, ask);
            r <= t.rd && ReadItem(Rebased(u, r), ask) == (Rebased(t, r), item)
  {
    hide Stream.Read, Stream.ReadBytes, ReadBody, Rebased;
    RebasedRead(u, r, 1);
    RebasedRead(u, r, 4);
    match ask
    case ForAny =>
      RebasedBody(u.Read(1).0, r, u.Read(1).1);
      RebasedFlag(ReadValue(u).0, r);
    case ForArray => RebasedFlag(u.Read(4).0, r);
    case ForBytes(_) =>
      RebasedFlag(u.Read(4).0, r);
      RebasedBytes(u.Read(4).0, r, u.Read(4).1);
      RebasedFlag(u.Read(4).0.ReadBytes(u.Read(4).1).0, r);
  }

  lemma RebasedFlag(u: Stream, r: nat)
    requires r <= u.rd && u.Valid()
    ensures Rebased(u, r).failed == u.failed && Rebased(u, r).Valid()
  {
  }

  lemma {:induction false} RebasedAll(u: Stream, r: nat, asks: seq<Ask>)
    requires r <= u.rd && u.Valid() && r % 8 == 0
    ensures var (t, items) := ReadAll(u, asks);
            r <= t.rd && t.Valid() && ReadAll(Rebased(u, r), asks) == (Rebased(t, r), items)
    decreases |asks|
  {
    hide ReadItem, Rebased;
    RebasedFlag(u, r);
    if asks != [] {
      RebasedItem(u, r, asks[0]);
      var (t, item) := ReadItem(u, asks[0]);
      if item.Some? {
        RebasedAll(t, r, asks[1..]);
      }
    }
  }

  /** What `MarshalInterface` puts into any message, `UnmarshalInterface` makes a message of
      that holds the bytes not read yet. */
  lemma MarshalBack(s: Stream, inner: Stream, host: bool)
    requires inner.Valid() && inner.Length() < Limit(4) && !s.failed
    ensures var t := WroteAll(s, Marshalled(inner));
            && |s.data| <= |t.data|
            && Unmarshalled(Stream(t.data, |s.data|, s.little, false), host) ==
               (Stream(t.data, |t.data|, s.little, false), Some(Stream(inner.data[inner.rd..], 0, host, false)))
  {
    hide WroteItem, ReadItem, Follows, Limit;
    var len, left := Any(UInt32(inner.Length())), Bytes(inner.data[inner.rd..]);
    var t := WroteAll(s, Marshalled(inner));
    TwoItems(s, UInt32(inner.Length()), inner.data[inner.rd..]);
    var s1 := WroteItem(s, len);
    ItemGrows(s, len);
    ItemGrows(s1, left);
    Extend(s, s1, t);
    var u := Stream(t.data, |s.data|, s.little, false);
    assert Follows(u, s, t) by { Starts(u, s, t); }
    ItemBack(u, s, len, t);
    ItemBack(After(u, s1), s1, left, t);
  }

  lemma Starts(u: Stream, s: Stream, t: Stream)
    requires Extends(s, t) && u == Stream(t.data, |s.data|, s.little, false)
    ensures Follows(u, s, t)
  {
  }

  /** The copy of a message that has been read up to `rd`, made on a machine of byte order
      `host`, reads like the message itself. */
  ghost predicate CopyReadsAlike(rd: nat, little: bool, host: bool) {
    forall data: seq<byte>, asks: seq<Ask> | rd <= |data| ::
      ReadAll(Stream(data[rd..], 0, host, false), asks).1 == ReadAll(Stream(data, rd, little, false), asks).1
  }

  /** It does exactly when reading has stopped at a multiple of eight and the byte order is
      the same. */
  lemma CopyIsFaithful(rd: nat, little: bool, host: bool)
    ensures CopyReadsAlike(rd, little, host) <==> rd % 8 == 0 && little == host
  {
    if rd % 8 != 0 {
      MisalignedCopy(rd, little, host);
    } else if little != host {
      SwappedCopy(rd, little, host);
    } else {
      forall data: seq<byte>, asks: seq<Ask> | rd <= |data|
        ensures ReadAll(Stream(data[rd..], 0, host, false), asks).1 == ReadAll(Stream(data, rd, little, false), asks).1
      {
        RebasedAll(Stream(data, rd, little, false), rd, asks);
      }
    }
  }

  /** A 64-bit value written after `rd` bytes is not found in the copy. */
  lemma MisalignedCopy(rd: nat, little: bool, host: bool)
    requires rd % 8 != 0
    ensures !CopyReadsAlike(rd, little, host)
  {
    hide Put, Get, WroteItem, ReadItem;
    var s := Stream(Zeros(rd), 0, little, false);
    var item := Any(UInt64(1));
    Limits();
    RoundTrip(s, [item]);
    OneItem(s, item);
    LongData(rd, little);
    var data := WroteItem(s, item).data;
    LongRead(data[rd..], host);
    assert ReadAll(Stream(data[rd..], 0, host, false), [ForAny]).1 == [];
    assert Asks([item]) == [ForAny] && |TrimmedAll([item])| == 1;
  }

  /** A type code, less than seven bytes of padding, and the value. */
  lemma LongData(rd: nat, little: bool)
    requires rd % 8 != 0
    ensures ItemOk(Any(UInt64(1)))
    ensures var data := WroteItem(Stream(Zeros(rd), 0, little, false), Any(UInt64(1))).data;
            rd < |data| < rd + 16 && data[rd] == 8
  {
    hide Put;
    Limits();
    PutByte(8, little);
    var s := Stream(Zeros(rd), 0, little, false).Wrote(8, 1);
    assert s.data == Zeros(rd) + [8];
    var data := s.Wrote(1, 8).data;
    assert data[rd] == s.data[rd];
  }

  lemma LongRead(data: seq<byte>, host: bool)
    requires 0 < |data| < 16 && data[0] == 8
    ensures ReadItem(Stream(data, 0, host, false), ForAny).1 == None
  {
    hide Get;
    var copy := Stream(data, 0, host, false);
    assert data[0..1] == [8];
    GetByte(8, host);
    assert copy.Read(1) == (copy.(rd := 1), 8);
  }

  lemma PutByte(n: byte, little: bool)
    ensures Put(n, 1, little) == [n]
  {
    assert Put(n / 256, 0, little) == [];
  }

  lemma GetByte(n: byte, little: bool)
    ensures Get([n], little) == n
  {
  }

  lemma OneItem(s: Stream, item: Item)
    requires ItemOk(item)
    ensures WroteAll(s, [item]) == WroteItem(s, item)
  {
    hide WroteItem;
    assert [item][1..] == [];
    assert WroteAll(WroteItem(s, item), []) == WroteItem(s, item);
  }

  /** The 16-bit value 1 comes back as 256 in the other byte order. */
  lemma SwappedCopy(rd: nat, little: bool, host: bool)
    requires rd % 8 == 0 && little != host
    ensures !CopyReadsAlike(rd, little, host)
  {
    hide Put, Get, WroteItem, ReadItem;
    var s := Stream(Zeros(rd), 0, little, false);
    var item := Any(UInt16(1));
    Limits();
    RoundTrip(s, [item]);
    OneItem(s, item);
    ShortData(rd, little);
    var data := WroteItem(s, item).data;
    assert data[rd..] == [4, 0] + Put(1, 2, little);
    ShortRead(data[rd..], little, host);
    assert ReadAll(Stream(data[rd..], 0, host, false), [ForAny]).1[0] == Any(UInt16(256));
    assert Asks([item]) == [ForAny] && TrimmedAll([item])[0] == item;
  }

  lemma ShortData(rd: nat, little: bool)
    requires rd % 8 == 0
    ensures ItemOk(Any(UInt16(1)))
    ensures WroteItem(Stream(Zeros(rd), 0, little, false), Any(UInt16(1))).data == Zeros(rd) + ([4, 0] + Put(1, 2, little))
  {
    hide Put;
    Limits();
    PutByte(4, little);
    var s := Stream(Zeros(rd), 0, little, false).Wrote(4, 1);
    assert s.data == Zeros(rd) + [4];
    assert s.Wrote(1, 2).data == Zeros(rd) + [4] + [0] + Put(1, 2, little);
  }

  lemma ShortRead(data: seq<byte>, little: bool, host: bool)
    requires data == [4, 0] + Put(1, 2, little) && little != host
    ensures ReadItem(Stream(data, 0, host, false), ForAny).1 == Some(Any(UInt16(256)))
  {
    hide Put, Get;
    var copy := Stream(data, 0, host, false);
    assert data[0..1] == [4];
    GetByte(4, host);
    assert copy.Read(1) == (copy.(rd := 1), 4);
    assert data[2..4] == Put(1, 2, little);
    Swapped(little);
    assert copy.(rd := 1).Read(2) == (copy.(rd := 4), 256);
  }

  lemma Swapped(little: bool)
    ensures Get(Put(1, 2, little), !little) == 256
  {
    assert Put(0, 1, little) == [0];
    if little {
      assert Put(1, 2, little) == [1, 0];
      assert [1, 0][..1] == [1];
    } else {
      assert Put(1, 2, little) == [0, 1];
      assert [0, 1][1..] == [1];
    }
    GetByte(1, !little);
  }

  // ---- The bytes of each kind of value ----

  function New(little: bool): Stream {
    Stream([], 0, little, false)
  }

  /** A value at the start of a message: the number of its type, padding up to its size, and its
      bytes. Negative numbers are in two's complement. */
  function Wire(v: Value, little: bool): seq<byte>
    requires Ok(v)
  {
    match v
    case Void => [0]
    case Bool(b) => [1] + Put(if b then 1 else 0, 1, little)
    case Byte(n) => [2] + Put(n, 1, little)
    case Int16(i) => [3, 0] + Put(if i < 0 then 0x1_0000 + i else i, 2, little)
    case UInt16(n) => [4, 0] + Put(n, 2, little)
    case Int32(i) => [5, 0, 0, 0] + Put(if i < 0 then 0x1_0000_0000 + i else i, 4, little)
    case UInt32(n) => [6, 0, 0, 0] + Put(n, 4, little)
    case Int64(i) => [7, 0, 0, 0, 0, 0, 0, 0] + Put(if i < 0 then 0x1_0000_0000_0000_0000 + i else i, 8, little)
    case UInt64(n) => [8, 0, 0, 0, 0, 0, 0, 0] + Put(n, 8, little)
    case Float4(n) => [9, 0, 0, 0] + Put(n, 4, little)
    case Float8(n) => [10, 0, 0, 0, 0, 0, 0, 0] + Put(n, 8, little)
    case String(text) => [11, 0, 0, 0] + Put(|text|, 4, little) + text
    case Guid(g) =>
      if g == NULL_GUID then [12, 0]
      else [12, 1, 0, 0] + Put(g.data1, 4, little) + Put(g.data2, 2, little) + Put(g.data3, 2, little) + g.data4
  }

  lemma OneByteWrote(s: Stream, b: nat)
    requires b < 256
    ensures s.Wrote(b, 1) == s.(data := s.data + [b])
  {
    assert Put(b, 1, s.little) == [b];
    assert s.data + Zeros(0) == s.data;
    assert AlignUp(|s.data|, 1) == |s.data|;
  }

  lemma Padded(size: nat)
    requires size == 1 || size == 2 || size == 4 || size == 8
    ensures AlignUp(1, size) == size
  {
  }

  /** A value that is one word. */
  lemma FirstWord(v: Value, little: bool)
    requires Ok(v) && !v.Void? && !v.String? && !v.Guid?
    ensures
      var (n, size) := WordOf(v);
      WroteValue(New(little), v).data == [TypeOf(v)] + Zeros(size - 1) + Put(n, size, little)
  {
    OneByteWrote(New(little), TypeOf(v));
    var s := New(little).(data := [TypeOf(v)]);
    assert [] + [TypeOf(v)] == [TypeOf(v)];
    WordOfValue(s, s, v);
    Padded(WordOf(v).1);
    hide Put;
  }

  lemma FirstText(text: seq<byte>, little: bool)
    requires Ok(String(text))
    ensures WroteValue(New(little), String(text)).data == Wire(String(text), little)
  {
    OneByteWrote(New(little), 11);
    var s := New(little).(data := [11]);
    assert [] + [11] == [11];
    Padded(4);
    hide Put;
    assert s.Wrote(|text|, 4).data == [11, 0, 0, 0] + Put(|text|, 4, little);
  }

  lemma FirstGuid(g: GuidT, little: bool)
    requires Ok(Guid(g))
    ensures WroteValue(New(little), Guid(g)).data == Wire(Guid(g), little)
  {
    var s := New(little).(data := [12]);
    OneByteWrote(New(little), 12);
    assert [] + [12] == [12] && [12] + [0] == [12, 0] && [12] + [1] == [12, 1];
    OneByteWrote(s, 0);
    OneByteWrote(s, 1);
    hide Put, Stream.Wrote;
    assert WroteValue(New(little), Guid(g)) == WroteGuid(s, g);
    if g != NULL_GUID {
      GuidFields(g, s.(data := [12, 1]));
    }
  }

  lemma GuidFields(g: GuidT, s: Stream)
    requires GuidOk(g) && s.data == [12, 1]
    ensures s.Wrote(g.data1, 4).Wrote(g.data2, 2).Wrote(g.data3, 2).data ==
            [12, 1, 0, 0] + Put(g.data1, 4, s.little) + Put(g.data2, 2, s.little) + Put(g.data3, 2, s.little)
  {
    hide Put;
    assert AlignUp(2, 4) == 4 && AlignUp(8, 2) == 8 && AlignUp(10, 2) == 10;
    var s1 := s.Wrote(g.data1, 4);
    assert s1.data == [12, 1, 0, 0] + Put(g.data1, 4, s.little);
    assert s1.Wrote(g.data2, 2).data == s1.data + Put(g.data2, 2, s.little);
  }

  lemma Pads(code: byte)
    ensures [code] + Zeros(0) == [code] && [code] + Zeros(1) == [code, 0] && [code] + Zeros(3) == [code, 0, 0, 0]
    ensures [code] + Zeros(7) == [code, 0, 0, 0, 0, 0, 0, 0]
  {
  }

  lemma WireOfWord(v: Value, little: bool)
    requires Ok(v) && !v.Void? && !v.String? && !v.Guid?
    ensures
      var (n, size) := WordOf(v);
      size > 0 && Wire(v, little) == [TypeOf(v)] + Zeros(size - 1) + Put(n, size, little)
  {
    Limits();
    Pads(TypeOf(v));
    hide Put, Zeros, Limit;
  }

  /** What a value is on the wire. */
  lemma WireIs(v: Value, little: bool)
    requires Ok(v)
    ensures WroteValue(New(little), v).data == Wire(v, little)
  {
    hide Wire, WordOf, Put, Zeros;
    match v
    case Void =>
      OneByteWrote(New(little), 0);
      VoidWire(little);
    case String(text) => FirstText(text, little);
    case Guid(g) => FirstGuid(g, little);
    case _ =>
      hide WroteValue;
      FirstWord(v, little);
      WireOfWord(v, little);
  }

  lemma VoidWire(little: bool)
    ensures Wire(Void, little) == [] + [0]
  {
  }
}
