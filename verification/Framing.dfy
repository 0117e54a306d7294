/** Frames on a socket: `build_header` and `run_read_loop` of a client (UserSession.cpp:288-362,
    667-707), `send_message`, `on_recv` and `parse_message` of a server
    (MessageConnection.cpp:149-206, 277-356, 1075-1124). */
module Framing {
  import opened Cdr
  import opened Options

  datatype Message = Message(dest: nat, src: nat, attribs: nat, destThread: nat, srcThread: nat, request: bool,
                             payload: seq<byte>)

  const HEADER: nat := 8
  const UINT32_MAX: nat := 0xFFFF_FFFF

  predicate Sendable(m: Message) {
    m.dest <= UINT32_MAX && m.src <= UINT32_MAX && m.attribs <= UINT32_MAX
    && m.destThread < 0x1_0000 && m.srcThread < 0x1_0000
  }

  // ---- The layout ----

  function Flag(b: bool): byte { if b then 1 else 0 }

  function Fields(m: Message, little: bool): (s: seq<byte>)
    ensures |s| == 17
  {
    Put(m.dest, 4, little) + Put(m.src, 4, little) + Put(m.attribs, 4, little)
    + Put(m.destThread, 2, little) + Put(m.srcThread, 2, little) + [Flag(m.request)]
  }

  /** A message as its sender writes it. What stands in the gap before the payload is left open;
      a frame without payload may lack the gap. */
  datatype Frame = Frame(message: Message, little: bool, signature: byte, gap: seq<byte>) {
    predicate Valid() {
      Sendable(message) && (|gap| == 7 || (gap == [] && message.payload == [])) && |Body()| <= UINT32_MAX
    }

    function Body(): (s: seq<byte>)
      ensures |s| == 17 + |gap| + |message.payload|
    {
      Fields(message, little) + gap + message.payload
    }

    function Bytes(): (s: seq<byte>)
      ensures |s| == HEADER + |Body()|
    {
      Mark(little) + [1, signature] + Put(|Body()|, 4, little) + Body()
    }
  }

  function AllBytes(frames: seq<Frame>): seq<byte> {
    if frames == [] then [] else frames[0].Bytes() + AllBytes(frames[1..])
  }

  // ---- The writers ----

  /** The 25 bytes both writers begin with; the length comes later. */
  method WriteHeader(m: Message, little: bool, signature: byte) returns (header: CdrStream)
    requires Sendable(m)
    ensures fresh(header) && !header.failed && header.rd == 0 && header.little == little
    ensures header.data == Mark(little) + [1, signature] + Put(0, 4, little) + Fields(m, little)
  {
    header := new CdrStream([], little);
    header.WriteEndianess();
    header.Write(1, 1);
    header.Write(signature, 1);
    assert header.data == Mark(little) + [1, signature];
    header.Write(0, 4);
    assert header.data == Mark(little) + [1, signature] + Put(0, 4, little);
    WriteFields(header, m);
  }

  method WriteFields(header: CdrStream, m: Message)
    requires |header.data| == 8 && Sendable(m)
    modifies header
    ensures header.View() == old(header.View()).(data := old(header.data) + Fields(m, header.little))
  {
    hide Put, AlignUp, Fields;
    var little := header.little;
    ghost var s := header.View();
    WroteThere(s, m.dest, 4, 8);
    header.Write(m.dest, 4);
    WroteThere(header.View(), m.src, 4, 12);
    header.Write(m.src, 4);
    WroteThere(header.View(), m.attribs, 4, 16);
    header.Write(m.attribs, 4);
    WroteThere(header.View(), m.destThread, 2, 20);
    header.Write(m.destThread, 2);
    WroteThere(header.View(), m.srcThread, 2, 22);
    header.Write(m.srcThread, 2);
    WroteThere(header.View(), Flag(m.request), 1, 24);
    header.Write(Flag(m.request), 1);
    PutFlag(m.request, little);
    FieldsAppended(s.data, m, little);
  }

  lemma WroteThere(s: Stream, v: nat, size: nat, at: nat)
    requires |s.data| == at && (size == 1 || size == 2 || size == 4) && at % size == 0
    ensures s.Wrote(v, size) == s.(data := s.data + Put(v, size, s.little))
    ensures |s.Wrote(v, size).data| == at + size
  {
    hide Put;
    AlignedHere(0, at, size);
    assert s.data + Zeros(0) == s.data;
  }

  lemma FieldsAppended(start: seq<byte>, m: Message, l: bool)
    ensures start + Put(m.dest, 4, l) + Put(m.src, 4, l) + Put(m.attribs, 4, l)
            + Put(m.destThread, 2, l) + Put(m.srcThread, 2, l) + [Flag(m.request)] == start + Fields(m, l)
  {
    hide Put;
  }

  lemma PutFlag(b: bool, little: bool)
    ensures Put(Flag(b), 1, little) == [Flag(b)]
  {
    assert Put(Flag(b) / 256, 0, little) == [];
  }

  /** A client's header for a request or response; `None` when the message is too big. The
      payload follows from its own buffer. */
  method BuildHeader(m: Message, hasPayload: bool, little: bool) returns (header: Option<seq<byte>>)
    requires Sendable(m) && (!hasPayload ==> m.payload == [])
    ensures header.None? <==> |m.payload| > UINT32_MAX - 24
    ensures header.Some? ==>
              var f := Frame(m, little, 67, if hasPayload then Zeros(7) else []);
              f.Valid() && header.value + m.payload == f.Bytes()
  {
    hide Put, AlignUp, Fields;
    var stream := WriteHeader(m, little, 67);
    AlignedEnd(stream.View());
    var f := Frame(m, little, 67, if hasPayload then Zeros(7) else []);
    var len := |stream.data| - HEADER;
    if hasPayload {
      stream.AlignWr(MAX_ALIGNMENT);
      len := |stream.data| - HEADER;
      if |m.payload| > UINT32_MAX - len {
        return None;
      }
      len := len + |m.payload|;
    }
    stream.Replace(len, 4, 4);
    Replaced(m, little, 67, f.gap, len);
    header := Some(stream.data);
  }

  lemma AlignedEnd(s: Stream)
    requires |s.data| == 25
    ensures s.Aligned(MAX_ALIGNMENT) == s.(data := s.data + Zeros(7))
  {
  }

  lemma Replaced(m: Message, little: bool, signature: byte, gap: seq<byte>, len: nat)
    ensures
      var s := Mark(little) + [1, signature] + Put(0, 4, little) + Fields(m, little) + gap;
      s[..4] + Put(len, 4, little) + s[8..] + m.payload ==
      Mark(little) + [1, signature] + Put(len, 4, little) + (Fields(m, little) + gap + m.payload)
  {
    hide Put, Fields;
    var head := Mark(little) + [1, signature];
    var s := head + Put(0, 4, little) + Fields(m, little) + gap;
    assert s[..4] == head;
    assert s[8..] == Fields(m, little) + gap;
  }

  /** A server sends the gap only before a payload that is not empty. */
  method SendMessage(m: Message, little: bool) returns (sent: Option<seq<byte>>)
    requires Sendable(m)
    ensures sent.None? <==> |m.payload| > UINT32_MAX - 24
    ensures sent.Some? ==>
              var f := Frame(m, little, 83, if m.payload == [] then [] else Zeros(7));
              f.Valid() && sent.value == f.Bytes()
  {
    hide Put, AlignUp, Fields;
    var stream := WriteHeader(m, little, 83);
    AlignedEnd(stream.View());
    var f := Frame(m, little, 83, if m.payload == [] then [] else Zeros(7));
    var len := |stream.data| - HEADER;
    if m.payload != [] {
      stream.AlignWr(MAX_ALIGNMENT);
      len := |stream.data| - HEADER;
      if |m.payload| > UINT32_MAX - len {
        return None;
      }
      len := len + |m.payload|;
    }
    stream.Replace(len, 4, 4);
    Replaced(m, little, 83, f.gap, len);
    sent := Some(stream.data + m.payload);
  }

  // ---- Reading a message ----

  /** Everything after the two channel ids, and what is left as payload. */
  function ReadRest(s: Stream, dest: nat, src: nat): (Stream, Message)
    requires s.Valid()
  {
    var (s1, attribs) := s.Read(4);
    var (s2, destThread) := s1.Read(2);
    var (s3, srcThread) := s2.Read(2);
    var (s4, flag) := s3.Read(1);
    var t := if s4.Length() > 0 then s4.AlignedRd(MAX_ALIGNMENT) else s4;
    (t, Message(dest, src, attribs, destThread, srcThread, flag != 0, t.data[t.rd..]))
  }

  function ReadMessage(s: Stream): (Stream, Message)
    requires s.Valid()
  {
    var (s1, dest) := s.Read(4);
    var (s2, src) := s1.Read(4);
    ReadRest(s2, dest, src)
  }

  /** The first eight bytes: version and length. The signature is skipped. */
  function ReadHeader(s: Stream): (Stream, nat, nat)
    requires s.Valid()
  {
    var (s1, version) := WithOrder(s).Read(1);
    var (s2, len) := s1.Read(4);
    (s2, version, len)
  }

  method GetRest(s: CdrStream, dest: nat, src: nat) returns (m: Message)
    requires s.View().Valid()
    modifies s
    ensures (s.View(), m) == ReadRest(old(s.View()), dest, src)
    ensures s.View().Valid()
  {
    var attribs := s.Read(4);
    var destThread := s.Read(2);
    var srcThread := s.Read(2);
    var flag := s.Read(1);
    if |s.data| - s.rd > 0 {
      s.AlignRd(MAX_ALIGNMENT);
    }
    m := Message(dest, src, attribs, destThread, srcThread, flag != 0, s.data[s.rd..]);
  }

  method GetHeader(s: CdrStream) returns (version: nat, len: nat)
    requires s.View().Valid()
    modifies s
    ensures (s.View(), version, len) == ReadHeader(old(s.View()))
    ensures s.View().Valid()
  {
    s.ReadEndianess();
    version := s.Read(1);
    len := s.Read(4);
  }

  // ---- The client's reader ----

  lemma Associate<T>(x: seq<T>, y: seq<T>, z: seq<T>)
    ensures x + (y + z) == (x + y) + z
  {
  }

  /** Why a reader stops: the other end disconnects, the socket ends or the frame is corrupt,
      or the version is wrong. */
  datatype End = Disconnect | Broken | BadVersion

  const CLIENT_SIZE: nat := 0x1000

  /** Is `dest` an id of the process with channel `own`, in any compartment? */
  predicate Mine(own: nat, dest: nat) {
    dest - dest % CLIENT_SIZE == own
  }

  /** One turn of the loop: it stops, or keeps at most one message and has read `size` bytes. */
  datatype Turn = Stop(end: End) | Took(kept: seq<Message>, size: nat)

  function ClientTurn(own: nat, input: seq<byte>): (t: Turn)
    ensures t.Took? ==> 0 < t.size <= |input|
  {
    if |input| < HEADER then Stop(Broken)
    else
      var (h, version, len) := ReadHeader(Stream(input[..HEADER], 0, false, false));
      if version != 1 then Stop(BadVersion)
      else if h.failed then Stop(Broken)
      else if len == 0 then Stop(Disconnect)
      else if |input| < HEADER + len then Stop(Broken)
      else
        var (s, m) := ReadMessage(Stream(input[HEADER..HEADER + len], 0, h.little, false));
        Took(if s.failed || !Mine(own, m.dest) then [] else [m], HEADER + len)
  }

  function ClientReads(own: nat, input: seq<byte>): (seq<Message>, End)
    decreases |input|
  {
    match ClientTurn(own, input)
    case Stop(end) => ([], end)
    case Took(kept, size) =>
      var (rest, end) := ClientReads(own, input[size..]);
      (kept + rest, end)
  }

  method ReadTurn(own: nat, input: seq<byte>) returns (t: Turn)
    ensures t == ClientTurn(own, input)
  {
    hide ReadHeader, ReadMessage;
    if |input| < HEADER {
      return Stop(Broken);
    }
    var header := new CdrStream(input[..HEADER], false);
    var version, len := GetHeader(header);
    if version != 1 {
      return Stop(BadVersion);
    }
    if header.failed {
      return Stop(Broken);
    }
    if len == 0 {
      return Stop(Disconnect);
    }
    if |input| < HEADER + len {
      return Stop(Broken);
    }
    var body := new CdrStream(input[HEADER..HEADER + len], header.little);
    var m := GetMessage(body);
    t := Took(if body.failed || !Mine(own, m.dest) then [] else [m], HEADER + len);
  }

  method RunReadLoop(own: nat, input: seq<byte>) returns (messages: seq<Message>, end: End)
    ensures (messages, end) == ClientReads(own, input)
  {
    hide ClientTurn;
    messages := [];
    var left := input;
    assert [] + ClientReads(own, left).0 == ClientReads(own, left).0;
    while true
      invariant ClientReads(own, input) == (messages + ClientReads(own, left).0, ClientReads(own, left).1)
      decreases |left|
    {
      var t := ReadTurn(own, left);
      match t {
        case Stop(e) =>
          assert messages + [] == messages;
          return messages, e;
        case Took(kept, size) =>
          Associate(messages, kept, ClientReads(own, left[size..]).0);
          messages, left := messages + kept, left[size..];
      }
    }
  }

  method GetMessage(s: CdrStream) returns (m: Message)
    requires s.View().Valid()
    modifies s
    ensures (s.View(), m) == ReadMessage(old(s.View()))
    ensures s.View().Valid()
  {
    var dest := s.Read(4);
    var src := s.Read(4);
    m := GetRest(s, dest, src);
  }

  // ---- The server's reader ----

  /** A message for the server itself, or a frame to send on as it is. */
  datatype Got = Own(m: Message) | Passed(dest: nat, src: nat, frame: seq<byte>)

  /** `parse_message` on a stream behind the header of `s.data`. */
  function Parse(isOwn: nat -> bool, s: Stream): Option<Got>
    requires s.Valid()
  {
    var (s1, dest) := s.Read(4);
    var (s2, src) := s1.Read(4);
    if s2.failed then None
    else if !isOwn(dest) then Some(Passed(dest, src, s.data))
    else
      var (t, m) := ReadRest(s2, dest, src);
      if t.failed then None else Some(Own(m))
  }

  /** One frame, and its size; `None` closes the connection. */
  function ServerTurn(isOwn: nat -> bool, input: seq<byte>): (t: Option<(Got, nat)>)
    ensures t.Some? ==> 0 < t.value.1 <= |input|
  {
    if |input| < HEADER then None
    else
      var (h, version, len) := ReadHeader(Stream(input[..HEADER], 0, false, false));
      if version != 1 || h.failed || len == 0 || |input| < HEADER + len then None
      else
        var (s, version2, len2) := ReadHeader(Stream(input[..HEADER + len], 0, false, false));
        if version2 != 1 || s.failed || len2 == 0 then None
        else
          match Parse(isOwn, s)
          case None => None
          case Some(g) => Some((g, HEADER + len))
  }

  function ServerReads(isOwn: nat -> bool, input: seq<byte>): seq<Got>
    decreases |input|
  {
    match ServerTurn(isOwn, input)
    case None => []
    case Some((g, size)) => [g] + ServerReads(isOwn, input[size..])
  }

  method ParseMessage(isOwn: nat -> bool, s: CdrStream) returns (got: Option<Got>)
    requires s.View().Valid()
    modifies s
    ensures got == Parse(isOwn, old(s.View()))
  {
    var dest := s.Read(4);
    var src := s.Read(4);
    if s.failed {
      return None;
    }
    if !isOwn(dest) {
      return Some(Passed(dest, src, s.data));
    }
    var m := GetRest(s, dest, src);
    got := if s.failed then None else Some(Own(m));
  }

  /** The first part of a read is the header alone; then the same buffer, with the rest behind
      it, is read from its start again. */
  method OnRecv(isOwn: nat -> bool, input: seq<byte>) returns (t: Option<(Got, nat)>)
    ensures t == ServerTurn(isOwn, input)
  {
    hide ReadHeader, Parse;
    if |input| < HEADER {
      return None;
    }
    var part1 := new CdrStream(input[..HEADER], false);
    var version, len := GetHeader(part1);
    if version != 1 || part1.failed || len == 0 || |input| < HEADER + len {
      return None;
    }
    var part2 := new CdrStream(input[..HEADER + len], false);
    var version2, len2 := GetHeader(part2);
    if version2 != 1 || part2.failed || len2 == 0 {
      return None;
    }
    var g := ParseMessage(isOwn, part2);
    t := if g.None? then None else Some((g.value, HEADER + len));
  }

  /** After each frame the next read is started. */
  method RecvAll(isOwn: nat -> bool, input: seq<byte>) returns (got: seq<Got>)
    ensures got == ServerReads(isOwn, input)
  {
    hide ServerTurn;
    got := [];
    var left := input;
    while true
      invariant ServerReads(isOwn, input) == got + ServerReads(isOwn, left)
      decreases |left|
    {
      var t := OnRecv(isOwn, left);
      if t.None? {
        assert got + [] == got;
        return;
      }
      Associate(got, [t.value.0], ServerReads(isOwn, left[t.value.1..]));
      got, left := got + [t.value.0], left[t.value.1..];
    }
  }

  // ---- What one writes, both read ----

  /** The header of a frame, whether read alone or with the body behind it. */
  lemma HeaderRead(f: Frame, data: seq<byte>)
    requires f.Valid() && HEADER <= |data| && data[..HEADER] == f.Bytes()[..HEADER]
    ensures ReadHeader(Stream(data, 0, false, false)) == (Stream(data, HEADER, f.little, false), 1, |f.Body()|)
  {
    hide Put;
    var b := f.Bytes();
    var s := Stream(data, 0, false, false);
    assert data[0..2] == b[0..2] == Mark(f.little);
    Marks();
    var s1 := s.(rd := 2, little := f.little);
    assert WithOrder(s) == s1;
    assert data[2..3] == b[2..3] == [1] == Put(1, 1, f.little) by { PutFlag(true, f.little); }
    Limits();
    ReadPut(s1, 1, 1);
    assert data[4..8] == b[4..8] == Put(|f.Body()|, 4, f.little);
    ReadPut(s1.(rd := 3), |f.Body()|, 4);
  }

  lemma Marks()
    ensures Mark(true) != Mark(false)
  {
    assert Mark(true)[0] == 0xFF;
    assert Put(0xFE, 1, false)[0] == 0xFE;
    assert Mark(false)[0] == 0xFE;
  }

  /** `b` is the body of a frame with message `m`. */
  predicate Laid(m: Message, l: bool, gap: nat, b: seq<byte>) {
    && Sendable(m) && |b| == 17 + gap + |m.payload| && (gap == 7 || (gap == 0 && m.payload == []))
    && b[0..4] == Put(m.dest, 4, l) && b[4..8] == Put(m.src, 4, l) && b[8..12] == Put(m.attribs, 4, l)
    && b[12..14] == Put(m.destThread, 2, l) && b[14..16] == Put(m.srcThread, 2, l) && b[16..17] == [Flag(m.request)]
    && b[17 + gap..] == m.payload
  }

  lemma Layout(f: Frame)
    requires f.Valid()
    ensures Laid(f.message, f.little, |f.gap|, f.Body())
  {
    hide Put;
  }

  lemma Slice(data: seq<byte>, at: nat, b: seq<byte>, i: nat, j: nat)
    requires at <= |data| && data[at..] == b && i <= j <= |b|
    ensures data[at + i..at + j] == b[i..j]
  {
    var x, y := data[at + i..at + j], b[i..j];
    forall k | 0 <= k < |x| ensures x[k] == y[k] {
      assert x[k] == data[at + (i + k)] == data[at..][i + k];
    }
  }

  lemma AlignedHere(at: nat, off: nat, size: nat)
    requires at % 8 == 0 && (size == 1 || size == 2 || size == 4) && off % size == 0
    ensures AlignUp(at + off, size) == at + off
  {
    hide AlignUp;
    var r := AlignUp(at + off, size);
    if size == 2 {
      SameEven(at + off, r);
    } else if size == 4 {
      SameFourfold(at + off, r);
    }
  }

  lemma SameEven(n: nat, r: nat)
    requires n <= r < n + 2 && n % 2 == 0 && r % 2 == 0
    ensures r == n
  {
  }

  lemma SameFourfold(n: nat, r: nat)
    requires n <= r < n + 4 && n % 4 == 0 && r % 4 == 0
    ensures r == n
  {
  }

  lemma FieldRead(data: seq<byte>, at: nat, l: bool, off: nat, v: nat, size: nat)
    requires at % 8 == 0 && (size == 1 || size == 2 || size == 4) && off % size == 0
    requires at + off + size <= |data| && v < Limit(size)
    requires data[at..][off..off + size] == Put(v, size, l)
    ensures Stream(data, at + off, l, false).Read(size) == (Stream(data, at + off + size, l, false), v)
  {
    hide Put, Limit, Get, AlignUp;
    Slice(data, at, data[at..], off, off + size);
    AlignedHere(at, off, size);
    ReadPut(Stream(data, at + off, l, false), v, size);
  }

  lemma IdsRead(m: Message, l: bool, gap: nat, data: seq<byte>, at: nat)
    requires at % 8 == 0 && at <= |data| && Laid(m, l, gap, data[at..])
    ensures Stream(data, at, l, false).Read(4) == (Stream(data, at + 4, l, false), m.dest)
    ensures Stream(data, at + 4, l, false).Read(4) == (Stream(data, at + 8, l, false), m.src)
  {
    hide Put, Limit;
    Limits();
    FieldRead(data, at, l, 0, m.dest, 4);
    FieldRead(data, at, l, 4, m.src, 4);
  }

  lemma RestRead(m: Message, l: bool, gap: nat, data: seq<byte>, at: nat)
    requires at % 8 == 0 && at <= |data| && Laid(m, l, gap, data[at..])
    ensures ReadRest(Stream(data, at + 8, l, false), m.dest, m.src) == (Stream(data, at + 17 + gap, l, false), m)
  {
    hide Put, Limit, Get, Laid;
    ThreadsRead(m, l, gap, data, at);
    FlagRead(m, l, gap, data, at);
  }

  lemma ThreadsRead(m: Message, l: bool, gap: nat, data: seq<byte>, at: nat)
    requires at % 8 == 0 && at <= |data| && Laid(m, l, gap, data[at..])
    ensures Stream(data, at + 8, l, false).Read(4) == (Stream(data, at + 12, l, false), m.attribs)
    ensures Stream(data, at + 12, l, false).Read(2) == (Stream(data, at + 14, l, false), m.destThread)
    ensures Stream(data, at + 14, l, false).Read(2) == (Stream(data, at + 16, l, false), m.srcThread)
  {
    hide Put, Limit;
    Limits();
    FieldRead(data, at, l, 8, m.attribs, 4);
    FieldRead(data, at, l, 12, m.destThread, 2);
    FieldRead(data, at, l, 14, m.srcThread, 2);
  }

  /** The last field, and the step over the gap. */
  lemma FlagRead(m: Message, l: bool, gap: nat, data: seq<byte>, at: nat)
    requires at % 8 == 0 && at <= |data| && Laid(m, l, gap, data[at..])
    ensures Stream(data, at + 16, l, false).Read(1) == (Stream(data, at + 17, l, false), Flag(m.request))
    ensures |data| > at + 17 ==> Stream(data, at + 17, l, false).AlignedRd(8) == Stream(data, at + 17 + gap, l, false)
    ensures |data| == at + 17 ==> gap == 0
    ensures data[at + 17 + gap..] == m.payload
  {
    hide Put, Limit, Get;
    Limits();
    PutFlag(m.request, l);
    FieldRead(data, at, l, 16, Flag(m.request), 1);
    assert data[at + 17 + gap..] == data[at..][17 + gap..];
  }

  /** The body of a frame, at any multiple of eight in its buffer. The payload begins at one
      too, so it is aligned as in its own buffer. */
  lemma MessageRead(f: Frame, data: seq<byte>, at: nat)
    requires f.Valid() && at % 8 == 0 && at <= |data| && data[at..] == f.Body()
    ensures var end := at + 17 + |f.gap|;
            && ReadMessage(Stream(data, at, f.little, false)) == (Stream(data, end, f.little, false), f.message)
            && (end % 8 == 0 || f.message.payload == [])
  {
    hide ReadRest, Put;
    Layout(f);
    IdsRead(f.message, f.little, |f.gap|, data, at);
    RestRead(f.message, f.little, |f.gap|, data, at);
  }

  function Messages(frames: seq<Frame>, own: nat): seq<Message> {
    if frames == [] then []
    else (if Mine(own, frames[0].message.dest) then [frames[0].message] else []) + Messages(frames[1..], own)
  }

  function Handed(frames: seq<Frame>, isOwn: nat -> bool): seq<Got> {
    if frames == [] then []
    else
      var m := frames[0].message;
      [if isOwn(m.dest) then Own(m) else Passed(m.dest, m.src, frames[0].Bytes())] + Handed(frames[1..], isOwn)
  }

  /** A client gets back the messages of any frames, from clients or servers of either byte
      order, and then whatever follows them. */
  lemma {:induction false} ClientGetsAll(own: nat, frames: seq<Frame>, more: seq<byte>)
    requires forall f <- frames :: f.Valid()
    ensures ClientReads(own, AllBytes(frames) + more) ==
            (Messages(frames, own) + ClientReads(own, more).0, ClientReads(own, more).1)
    decreases |frames|
  {
    hide ReadHeader, ReadMessage;
    if frames == [] {
      assert AllBytes(frames) + more == more;
      assert [] + ClientReads(own, more).0 == ClientReads(own, more).0;
    } else {
      var f := frames[0];
      var input := AllBytes(frames) + more;
      ClientGetsAll(own, frames[1..], more);
      Front(frames, more);
      HeaderRead(f, input[..HEADER]);
      BodyIs(f);
      MessageRead(f, input[HEADER..|f.Bytes()|], 0);
      var kept := if Mine(own, f.message.dest) then [f.message] else [];
      Associate(kept, Messages(frames[1..], own), ClientReads(own, more).0);
    }
  }

  lemma Cut<T>(x: seq<T>, y: seq<T>, z: seq<T>, k: nat)
    requires k <= |x|
    ensures (x + y + z)[..k] == x[..k] && (x + y + z)[k..|x|] == x[k..] && (x + y + z)[|x|..] == y + z
  {
  }

  lemma Front(frames: seq<Frame>, more: seq<byte>)
    requires frames != []
    ensures var f, input := frames[0], AllBytes(frames) + more;
            && |f.Bytes()| <= |input|
            && input[..|f.Bytes()|] == f.Bytes()
            && input[..HEADER] == f.Bytes()[..HEADER]
            && input[HEADER..|f.Bytes()|] == f.Bytes()[HEADER..]
            && input[|f.Bytes()|..] == AllBytes(frames[1..]) + more
  {
    var x := frames[0].Bytes();
    Cut(x, AllBytes(frames[1..]), more, HEADER);
    Cut(x, AllBytes(frames[1..]), more, |x|);
  }

  lemma BodyIs(f: Frame)
    ensures f.Bytes()[HEADER..] == f.Body()
  {
    hide Put, Fields;
  }

  /** So does a server, which passes on what is not its own byte for byte. */
  lemma {:induction false} ServerGetsAll(isOwn: nat -> bool, frames: seq<Frame>, more: seq<byte>)
    requires forall f <- frames :: f.Valid()
    ensures ServerReads(isOwn, AllBytes(frames) + more) == Handed(frames, isOwn) + ServerReads(isOwn, more)
    decreases |frames|
  {
    hide ReadHeader, Parse;
    if frames == [] {
      assert AllBytes(frames) + more == more;
    } else {
      var f := frames[0];
      var input := AllBytes(frames) + more;
      ServerGetsAll(isOwn, frames[1..], more);
      Front(frames, more);
      HeaderRead(f, input[..HEADER]);
      HeaderRead(f, f.Bytes());
      ServerParses(isOwn, f);
      Associate([Handed(frames, isOwn)[0]], Handed(frames[1..], isOwn), ServerReads(isOwn, more));
    }
  }

  lemma ServerParses(isOwn: nat -> bool, f: Frame)
    requires f.Valid()
    ensures Parse(isOwn, Stream(f.Bytes(), HEADER, f.little, false)) ==
            Some(if isOwn(f.message.dest) then Own(f.message) else Passed(f.message.dest, f.message.src, f.Bytes()))
  {
    hide ReadRest, Put;
    BodyIs(f);
    Layout(f);
    IdsRead(f.message, f.little, |f.gap|, f.Bytes(), HEADER);
    RestRead(f.message, f.little, |f.gap|, f.Bytes(), HEADER);
  }

  /** The empty message both ends send to disconnect ends the client's loop. */
  lemma DisconnectIsRead(own: nat, frames: seq<Frame>, little: bool, signature: byte, more: seq<byte>)
    requires forall f <- frames :: f.Valid()
    ensures ClientReads(own, AllBytes(frames) + (Mark(little) + [1, signature] + Put(0, 4, little) + more)) ==
            (Messages(frames, own), Disconnect)
  {
    hide ReadHeader, ReadMessage;
    var last := Mark(little) + [1, signature] + Put(0, 4, little) + more;
    ClientGetsAll(own, frames, last);
    EmptyHeader(little, signature, last);
    assert ClientReads(own, last) == ([], Disconnect);
    assert Messages(frames, own) + [] == Messages(frames, own);
  }

  lemma EmptyHeader(little: bool, signature: byte, data: seq<byte>)
    requires |data| >= HEADER && data[..HEADER] == Mark(little) + [1, signature] + Put(0, 4, little)
    ensures ReadHeader(Stream(data[..HEADER], 0, false, false)) == (Stream(data[..HEADER], HEADER, little, false), 1, 0)
  {
    hide Put;
    var b := data[..HEADER];
    var s := Stream(b, 0, false, false);
    assert b[0..2] == Mark(little);
    Marks();
    var s1 := s.(rd := 2, little := little);
    assert WithOrder(s) == s1;
    assert b[2..3] == [1] == Put(1, 1, little) by { PutFlag(true, little); }
    Limits();
    ReadPut(s1, 1, 1);
    assert b[4..8] == Put(0, 4, little);
    ReadPut(s1.(rd := 3), 0, 4);
  }

  // ---- What any bytes are read as ----

  /** A client's own ids are those from its channel up, all compartments long. */
  lemma MineIs(own: nat, dest: nat)
    ensures Mine(own, dest) <==> own % 0x1000 == 0 && own <= dest < own + 0x1000
  {
    if own % 0x1000 == 0 && own <= dest < own + 0x1000 {
      var q := own / 0x1000;
      assert dest == 0x1000 * q + (dest - own);
    }
  }

  /** The byte-order mark of a frame, first byte first. */
  predicate Marked(input: seq<byte>, little: bool)
    requires |input| >= 2
  {
    input[0] == (if little then 0xFF else 0xFE) && input[1] == (if little then 0xFE else 0xFF)
  }

  lemma MarkIs(s: seq<byte>, little: bool)
    requires |s| == 2
    ensures s == Mark(little) <==> Marked(s, little)
  {
    assert Put(0xFEFF, 2, little) == if little then [0xFF] + Put(0xFE, 1, little) else Put(0xFE, 1, little) + [0xFF];
    assert Put(0xFE, 1, little) == if little then [0xFE] + Put(0, 0, little) else Put(0, 0, little) + [0xFE];
    assert s == [s[0], s[1]];
  }

  /** The message in a body of at least 17 bytes. */
  function InBody(b: seq<byte>, little: bool): Message
    requires |b| >= 17
  {
    Message(Get(b[0..4], little), Get(b[4..8], little), Get(b[8..12], little), Get(b[12..14], little),
            Get(b[14..16], little), b[16] != 0, if |b| > 24 then b[24..] else [])
  }

  lemma FieldIs(data: seq<byte>, at: nat, l: bool, off: nat, size: nat)
    requires at % 8 == 0 && (size == 1 || size == 2 || size == 4) && off % size == 0 && at + off <= |data|
    ensures
      Stream(data, at + off, l, false).Read(size) ==
      if at + off + size <= |data| then
        (Stream(data, at + off + size, l, false), Get(data[at..][off..off + size], l))
      else (Stream(data, at + off, l, true), 0)
  {
    hide Get, AlignUp;
    AlignedHere(at, off, size);
    if at + off + size <= |data| {
      Slice(data, at, data[at..], off, off + size);
    }
  }

  lemma RestIs(data: seq<byte>, at: nat, l: bool, dest: nat, src: nat)
    requires at % 8 == 0 && at + 8 <= |data|
    ensures
      var b := data[at..];
      var (s, m) := ReadRest(Stream(data, at + 8, l, false), dest, src);
      (s.failed <==> |b| < 17) && (|b| >= 17 ==> m == InBody(b, l).(dest := dest, src := src))
  {
    hide Get, AlignUp;
    FieldIs(data, at, l, 8, 4);
    if |data| >= at + 12 { FieldIs(data, at, l, 12, 2); }
    if |data| >= at + 14 { FieldIs(data, at, l, 14, 2); }
    if |data| >= at + 16 { FieldIs(data, at, l, 16, 1); }
    if |data| >= at + 17 {
      OneByte(data[at..][16..17], l);
      Gap(data, at, l);
    }
  }

  lemma OneByte(s: seq<byte>, little: bool)
    requires |s| == 1
    ensures Get(s, little) == s[0]
  {
    assert s[1..] == [] && s[..0] == [];
  }

  lemma Gap(data: seq<byte>, at: nat, l: bool)
    requires at % 8 == 0 && at + 17 <= |data|
    ensures
      var t := Stream(data, at + 17, l, false).AlignedRd(8);
      !t.failed && t.data[t.rd..] == (if |data| > at + 24 then data[at..][24..] else [])
  {
    hide AlignUp;
    var r := AlignUp(at + 17, 8);
    Eightfold(at, r);
  }

  lemma Eightfold(at: nat, r: nat)
    requires at % 8 == 0 && r % 8 == 0 && at + 17 <= r < at + 25
    ensures r == at + 24
  {
  }

  /** Version and length, of any bytes. */
  lemma HeaderIs(data: seq<byte>)
    requires |data| >= HEADER
    ensures
      var (h, version, len) := ReadHeader(Stream(data, 0, false, false));
      if Marked(data, true) || Marked(data, false) then
        var l := Marked(data, true);
        h == Stream(data, HEADER, l, false) && version == data[2] && len == Get(data[4..8], l)
      else h.failed && version == 0
  {
    hide Get, AlignUp;
    MarkIs(data[0..2], true);
    MarkIs(data[0..2], false);
    if Marked(data, true) || Marked(data, false) {
      var l := Marked(data, true);
      assert data[0..] == data;
      FieldIs(data, 0, l, 2, 1);
      OneByte(data[2..3], l);
      LengthIs(data, l);
    }
  }

  lemma LengthIs(data: seq<byte>, l: bool)
    requires |data| >= HEADER
    ensures Stream(data, 3, l, false).Read(4) == (Stream(data, HEADER, l, false), Get(data[4..8], l))
  {
    hide Get;
    assert AlignUp(3, 4) == 4;
  }

  /** What a client makes of any bytes. A frame is skipped when it is too short for its fields or
      is for somebody else; without a byte-order mark the version cannot be read. */
  lemma ClientTurnIs(own: nat, input: seq<byte>)
    ensures
      ClientTurn(own, input) ==
      if |input| < 8 then Stop(Broken)
      else if !(Marked(input, true) || Marked(input, false)) || input[2] != 1 then Stop(BadVersion)
      else
        var l := Marked(input, true);
        var len := Get(input[4..8], l);
        if len == 0 then Stop(Disconnect)
        else if |input| < 8 + len then Stop(Broken)
        else
          var b := input[8..8 + len];
          Took(if len >= 17 && own % 0x1000 == 0 && own <= InBody(b, l).dest < own + 0x1000 then [InBody(b, l)] else [],
               8 + len)
  {
    hide ReadHeader, ReadMessage, Get, Mine, Marked;
    if |input| >= 8 {
      var head := input[..8];
      HeaderIs(head);
      SameMark(input, head);
      assert head[4..8] == input[4..8] && head[2] == input[2];
      if Marked(input, true) || Marked(input, false) {
        var l := Marked(input, true);
        var len := Get(input[4..8], l);
        if 0 < len && |input| >= 8 + len {
          BodyRead(input[8..8 + len], l);
          MineIs(own, ReadMessage(Stream(input[8..8 + len], 0, l, false)).1.dest);
        }
      }
    }
  }

  lemma SameMark(input: seq<byte>, head: seq<byte>)
    requires |input| >= |head| >= 2 && head == input[..|head|]
    ensures Marked(input, true) == Marked(head, true) && Marked(input, false) == Marked(head, false)
  {
  }

  lemma BodyRead(b: seq<byte>, l: bool)
    ensures
      var (s, m) := ReadMessage(Stream(b, 0, l, false));
      (s.failed <==> |b| < 17) && (|b| >= 17 ==> m == InBody(b, l))
  {
    hide Get, AlignUp, ReadRest;
    assert b[0..] == b;
    FieldIs(b, 0, l, 0, 4);
    if |b| >= 4 { FieldIs(b, 0, l, 4, 4); }
    if |b| >= 8 {
      RestIs(b, 0, l, Get(b[0..4], l), Get(b[4..8], l));
    } else {
      FailedRest(b, l);
    }
  }

  lemma FailedRest(b: seq<byte>, l: bool)
    requires |b| < 8
    ensures ReadMessage(Stream(b, 0, l, false)).0.failed
  {
    hide Get, AlignUp;
    assert b[0..] == b;
    FieldIs(b, 0, l, 0, 4);
    if |b| >= 4 { FieldIs(b, 0, l, 4, 4); }
  }

  /** What a server makes of any bytes. */
  lemma ServerTurnIs(isOwn: nat -> bool, input: seq<byte>)
    ensures
      ServerTurn(isOwn, input) ==
      if |input| < 8 || !(Marked(input, true) || Marked(input, false)) || input[2] != 1 then None
      else
        var l := Marked(input, true);
        var len := Get(input[4..8], l);
        if len < 8 || |input| < 8 + len then None
        else
          var dest, src := Get(input[8..12], l), Get(input[12..16], l);
          if !isOwn(dest) then Some((Passed(dest, src, input[..8 + len]), 8 + len))
          else if len < 17 then None
          else Some((Own(InBody(input[8..8 + len], l)), 8 + len))
  {
    hide ReadHeader, Parse, Get, Marked;
    if |input| >= 8 {
      var head := input[..8];
      HeaderIs(head);
      SameMark(input, head);
      assert head[4..8] == input[4..8] && head[2] == input[2];
      if Marked(input, true) || Marked(input, false) {
        var l := Marked(input, true);
        var len := Get(input[4..8], l);
        if |input| >= 8 + len {
          var frame := input[..8 + len];
          HeaderIs(frame);
          SameMark(input, frame);
          assert frame[4..8] == input[4..8] && frame[2] == input[2];
          ParseIs(isOwn, frame, l);
          assert frame[8..] == input[8..8 + len];
          if len >= 8 {
            assert frame[8..][0..4] == input[8..12] && frame[8..][4..8] == input[12..16];
          }
        }
      }
    }
  }

  lemma ParseIs(isOwn: nat -> bool, frame: seq<byte>, l: bool)
    requires |frame| >= 8
    ensures
      var b := frame[8..];
      Parse(isOwn, Stream(frame, 8, l, false)) ==
      if |b| < 8 then None
      else if !isOwn(Get(b[0..4], l)) then Some(Passed(Get(b[0..4], l), Get(b[4..8], l), frame))
      else if |b| < 17 then None
      else Some(Own(InBody(b, l)))
  {
    hide Get, AlignUp, ReadRest;
    FieldIs(frame, 8, l, 0, 4);
    if |frame| >= 12 { FieldIs(frame, 8, l, 4, 4); }
    if |frame| >= 16 {
      RestIs(frame, 8, l, Get(frame[8..][0..4], l), Get(frame[8..][4..8], l));
    }
  }
}
