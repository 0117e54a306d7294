/** Channel close notices in the tree of processes: `channel_closed`, `process_channel_close`
    and `on_closed` (MessageConnection.cpp:99-109, 543-595, 852-869). */
module CloseNotices {
  import opened Channels
  import opened Options

  // ---- One handler ----

  predicate NoDuplicates<T(==)>(s: seq<T>) {
    forall i, j :: 0 <= i < j < |s| ==> s[i] != s[j]
  }

  function Without<T(==)>(s: seq<T>, x: T): seq<T> {
    if s == [] then [] else (if s[0] == x then [] else [s[0]]) + Without(s[1..], x)
  }

  /** Is the link `k` told about `channel`, when the news came from `src`? */
  predicate Chosen(h: Handler, channel: bv32, src: bv32, k: bv32) {
    k != src && (k == h.upstream || CanRoute(h, channel, k))
  }

  /** The chosen links; they are pushed on a stack, so the last of the table goes first. */
  function ChosenOf(h: Handler, links: seq<bv32>, channel: bv32, src: bv32): seq<bv32> {
    if links == [] then []
    else ChosenOf(h, links[1..], channel, src) + (if Chosen(h, channel, src, links[0]) then [links[0]] else [])
  }

  /** Whom `channel_closed(channel,src)` tells, with `links` in the table. */
  function Notices(h: Handler, links: seq<bv32>, channel: bv32, src: bv32): seq<bv32> {
    if channel !in links && src == 0 then []
    else ChosenOf(h, Without(links, channel), channel, src)
  }

  class MessageHandler {
    var handler: Handler
    /** The keys of `m_mapChannelIds`, in the order of the table. */
    var links: seq<bv32>
    /** The per-channel thread ids of every thread context. */
    var contexts: seq<map<bv32, bv16>>

    constructor (handler: Handler)
      ensures this.handler == handler && links == [] && contexts == []
    {
      this.handler, links, contexts := handler, [], [];
    }

    /** Returns the destinations of the notices in the order they are sent, and whether the
        waiting threads are woken. */
    method ChannelClosed(channel: bv32, src: bv32) returns (sent: seq<bv32>, pulse: bool)
      modifies this`links
      ensures links == Without(old(links), channel)
      ensures sent == Notices(handler, old(links), channel, src)
      ensures pulse == (channel in old(links))
    {
      hide Chosen;
      pulse := channel in links;
      links := Without(links, channel);
      sent := [];
      if pulse || src != 0 {
        sent := Report(channel, src);
      }
    }

    /** Pushes the links to tell on a stack. */
    method Collect(channel: bv32, src: bv32) returns (stack: seq<bv32>)
      ensures Reversed(stack) == ChosenOf(handler, links, channel, src)
    {
      hide Chosen;
      stack := [];
      var i := 0;
      while i < |links|
        invariant i <= |links|
        invariant ChosenOf(handler, links, channel, src) == ChosenOf(handler, links[i..], channel, src) + Reversed(stack)
      {
        assert links[i..][1..] == links[i + 1..];
        if Chosen(handler, channel, src, links[i]) {
          ReversedPush(stack, links[i]);
          stack := stack + [links[i]];
        }
        i := i + 1;
      }
    }

    /** Sends a notice to each collected link. */
    method Report(channel: bv32, src: bv32) returns (sent: seq<bv32>)
      ensures sent == ChosenOf(handler, links, channel, src)
    {
      hide Chosen;
      var stack := Collect(channel, src);
      sent := [];
      while stack != []
        invariant sent + Reversed(stack) == ChosenOf(handler, links, channel, src)
        decreases |stack|
      {
        var top := |stack| - 1;
        ReversedPush(stack[..top], stack[top]);
        assert stack == stack[..top] + [stack[top]];
        sent, stack := sent + [stack[top]], stack[..top];
      }
    }

    /** A close notice from `src` about `channel`. */
    method ProcessChannelClose(channel: bv32, src: bv32) returns (sent: seq<bv32>, pulse: bool)
      modifies this
      ensures handler == old(handler) && links == Without(old(links), channel)
      ensures sent == Notices(handler, old(links), channel, src)
      ensures pulse == (channel in old(links))
      ensures |contexts| == |old(contexts)|
      ensures forall i :: 0 <= i < |contexts| ==> contexts[i] == old(contexts)[i] - {channel}
    {
      sent, pulse := ChannelClosed(channel, src);
      var i := 0;
      while i < |contexts|
        invariant i <= |contexts| == |old(contexts)|
        invariant links == Without(old(links), channel) && handler == old(handler)
        invariant forall j :: 0 <= j < i ==> contexts[j] == old(contexts)[j] - {channel}
        invariant forall j :: i <= j < |contexts| ==> contexts[j] == old(contexts)[j]
      {
        contexts := contexts[i := contexts[i] - {channel}];
        i := i + 1;
      }
    }
  }

  function Reversed<T>(s: seq<T>): seq<T> {
    if s == [] then [] else Reversed(s[1..]) + [s[0]]
  }

  lemma {:induction false} ReversedPush<T>(s: seq<T>, x: T)
    ensures Reversed(s + [x]) == [x] + Reversed(s)
  {
    if s != [] {
      ReversedPush(s[1..], x);
      assert (s + [x])[1..] == s[1..] + [x];
    }
  }

  lemma {:induction false} WithoutAbsent<T>(s: seq<T>, x: T)
    requires x !in s
    ensures Without(s, x) == s
  {
    if s != [] {
      WithoutAbsent(s[1..], x);
    }
  }

  lemma {:induction false} WithoutIs<T>(s: seq<T>, x: T)
    ensures forall y :: y in Without(s, x) <==> y in s && y != x
    ensures forall j :: 0 <= j < |Without(s, x)| ==> Without(s, x)[j] in s
    ensures NoDuplicates(s) ==> NoDuplicates(Without(s, x))
  {
    if s != [] {
      WithoutIs(s[1..], x);
      var rest := Without(s[1..], x);
      if NoDuplicates(s) && s[0] != x {
        forall j | 0 <= j < |rest| ensures rest[j] != s[0] {
          assert rest[j] in s[1..];
          var k :| 0 <= k < |s| - 1 && s[1..][k] == rest[j];
          assert s[k + 1] == rest[j];
        }
      }
    }
  }

  /** Exactly the links that the rules allow are told, none of them the one the news came on,
      and each once. */
  lemma NoticesAre(h: Handler, links: seq<bv32>, channel: bv32, src: bv32, k: bv32)
    ensures k in Notices(h, links, channel, src) <==>
            && (channel in links || src != 0) && k in links && k != channel && k != src
            && (k == h.upstream || CanRoute(h, channel, k))
    ensures NoDuplicates(links) ==> NoDuplicates(Notices(h, links, channel, src))
  {
    hide CanRoute;
    WithoutIs(links, channel);
    ChosenAre(h, Without(links, channel), channel, src);
  }

  lemma {:induction false} ChosenAre(h: Handler, links: seq<bv32>, channel: bv32, src: bv32)
    ensures forall k :: k in ChosenOf(h, links, channel, src) <==> k in links && Chosen(h, channel, src, k)
    ensures NoDuplicates(links) ==> NoDuplicates(ChosenOf(h, links, channel, src))
  {
    hide Chosen;
    if links != [] {
      ChosenAre(h, links[1..], channel, src);
    }
  }

  /** Reporting a closed connection again sends nothing. */
  lemma SecondReport(h: Handler, links: seq<bv32>, channel: bv32)
    ensures Notices(h, Without(links, channel), channel, 0) == []
  {
    WithoutIs(links, channel);
  }

  // ---- The tree ----

  predicate Linked(n: Net, p: Process, q: Process) {
    match p
    case Root => q.User? && Exists(n, q)
    case User(u) => q == Root || (q.Client? && q.u == u && Exists(n, q))
    case Client(_, _) => false
  }

  /** The tables of all handlers: each has every neighbour once, in any order. */
  ghost predicate Tables(n: Net, tables: map<Process, seq<Process>>) {
    forall p: Process | !p.Client? && Exists(n, p) ::
      p in tables && NoDuplicates(tables[p]) && forall q :: q in tables[p] <==> Linked(n, p, q)
  }

  function HandlerOf(n: Net, p: Process): Handler {
    if p.Root? then RootHandler(Pack(IdOf(User(n.sandbox)))) else UserHandler(Pack(IdOf(p)))
  }

  function Keys(s: seq<Process>): seq<bv32> {
    if s == [] then [] else [Pack(IdOf(s[0]))] + Keys(s[1..])
  }

  predicate Tells(n: Net, p: Process, closed: Process, from: Option<Process>, q: Process) {
    Some(q) != from && q != closed
    && (q == Root || !p.Root? || (q.User? && RootCanRoute(IdOf(User(n.sandbox)), IdOf(closed), IdOf(q))))
  }

  function TellsOf(n: Net, p: Process, table: seq<Process>, closed: Process, from: Option<Process>): seq<Process> {
    if table == [] then []
    else TellsOf(n, p, table[1..], closed, from) + (if Tells(n, p, closed, from, table[0]) then [table[0]] else [])
  }

  /** Whom the handler of `p` tells that `closed` has gone; `from` is whom it heard it from. */
  function Forward(n: Net, p: Process, table: seq<Process>, closed: Process, from: Option<Process>): seq<Process> {
    if closed !in table && from.None? then [] else TellsOf(n, p, Without(table, closed), closed, from)
  }

  function Source(from: Option<Process>): bv32 {
    match from case None => 0 case Some(q) => Pack(IdOf(q))
  }

  predicate Proper(p: Process) {
    p != User(0) && (p.Client? ==> p.c != 0)
  }

  lemma SameId(p: Process, q: Process)
    requires Proper(p) && Proper(q)
    ensures Pack(IdOf(p)) == Pack(IdOf(q)) <==> p == q
    ensures Pack(IdOf(p)) != 0
  {
    Constants();
    PackInjective(IdOf(p), IdOf(q));
    PackInjective(IdOf(p), NULL);
  }

  predicate NearBy(p: Process, q: Process) {
    Proper(q) && (if p.Root? then q.User? else p.User? && (q.Root? || q.Client?))
  }

  lemma ChosenIs(n: Net, p: Process, closed: Process, from: Option<Process>, q: Process)
    requires NearBy(p, q) && Proper(closed) && (from.Some? ==> Proper(from.value))
    ensures q != closed ==>
              (Chosen(HandlerOf(n, p), Pack(IdOf(closed)), Source(from), Pack(IdOf(q))) <==> Tells(n, p, closed, from, q))
  {
    hide Pack, And, CanRoute;
    SameId(q, closed);
    SameId(q, Root);
    if from.Some? {
      SameId(q, from.value);
    }
    Constants();
    if p.Root? {
      RootCanRouteIs(IdOf(User(n.sandbox)), IdOf(closed), IdOf(q));
    } else {
      UserCanRouteIs(IdOf(p), IdOf(closed), IdOf(q));
    }
  }

  lemma {:induction false} KeysWithout(s: seq<Process>, closed: Process)
    requires Proper(closed) && forall q <- s :: Proper(q)
    ensures Keys(Without(s, closed)) == Without(Keys(s), Pack(IdOf(closed)))
    ensures Pack(IdOf(closed)) in Keys(s) <==> closed in s
  {
    hide Pack;
    if s != [] {
      KeysWithout(s[1..], closed);
      SameId(s[0], closed);
      var rest := Without(s[1..], closed);
      assert ([s[0]] + rest)[1..] == rest;
      assert Keys(s)[1..] == Keys(s[1..]);
      assert [] + rest == rest;
    }
  }

  lemma {:induction false} KeysAppend(s: seq<Process>, t: seq<Process>)
    ensures Keys(s + t) == Keys(s) + Keys(t)
  {
    if s != [] {
      KeysAppend(s[1..], t);
      assert (s + t)[1..] == s[1..] + t;
    } else {
      assert s + t == t;
    }
  }

  lemma {:induction false} KeysChosen(n: Net, p: Process, table: seq<Process>, closed: Process, from: Option<Process>)
    requires Proper(closed) && closed !in table && (from.Some? ==> Proper(from.value))
    requires forall q <- table :: NearBy(p, q)
    ensures ChosenOf(HandlerOf(n, p), Keys(table), Pack(IdOf(closed)), Source(from)) ==
            Keys(TellsOf(n, p, table, closed, from))
  {
    hide Pack, Chosen, HandlerOf, Tells, NearBy, Source;
    if table != [] {
      KeysChosen(n, p, table[1..], closed, from);
      ChosenIs(n, p, closed, from, table[0]);
      KeysAppend(TellsOf(n, p, table[1..], closed, from), if Tells(n, p, closed, from, table[0]) then [table[0]] else []);
    }
  }

  /** The handlers send the notices that the rules of the tree say. */
  lemma NoticesIs(n: Net, p: Process, table: seq<Process>, closed: Process, from: Option<Process>)
    requires Proper(closed) && (from.Some? ==> Proper(from.value))
    requires forall q <- table :: NearBy(p, q)
    ensures Notices(HandlerOf(n, p), Keys(table), Pack(IdOf(closed)), Source(from)) ==
            Keys(Forward(n, p, table, closed, from))
  {
    hide Pack, ChosenOf, HandlerOf, Tells;
    KeysWithout(table, closed);
    WithoutIs(table, closed);
    KeysChosen(n, p, Without(table, closed), closed, from);
    if from.Some? {
      SameId(from.value, Root);
    }
  }

  /** Every neighbour in the tree is near in this sense. */
  lemma LinkedIsNear(n: Net, p: Process, q: Process)
    requires NetOk(n) && Exists(n, p) && Linked(n, p, q)
    ensures NearBy(p, q)
  {
  }

  // ---- The flood ----

  datatype Notice = Notice(to: Process, from: Process)

  datatype Flood = Flood(tables: map<Process, seq<Process>>, flying: seq<Notice>, told: seq<Process>)

  function Letters(to: seq<Process>, from: Process): seq<Notice> {
    if to == [] then [] else [Notice(to[0], from)] + Letters(to[1..], from)
  }

  /** `x` finds its connection to `closed` broken. */
  function Start(n: Net, tables: map<Process, seq<Process>>, x: Process, closed: Process): Flood
    requires x in tables
  {
    Flood(tables[x := Without(tables[x], closed)], Letters(Forward(n, x, tables[x], closed, None), x), [])
  }

  /** Some notice on its way arrives; a client forwards nothing. */
  function Arrival(n: Net, closed: Process, f: Flood, i: nat): Flood
    requires i < |f.flying|
  {
    var m := f.flying[i];
    var rest := f.flying[..i] + f.flying[i + 1..];
    if m.to !in f.tables then Flood(f.tables, rest, f.told + [m.to])
    else
      var more := Letters(Forward(n, m.to, f.tables[m.to], closed, Some(m.from)), m.to);
      Flood(f.tables[m.to := Without(f.tables[m.to], closed)], rest + more, f.told + [m.to])
  }

  ghost predicate Legal(n: Net, closed: Process, f: Flood, picks: seq<nat>)
    decreases |picks|
  {
    picks == [] || (picks[0] < |f.flying| && Legal(n, closed, Arrival(n, closed, f, picks[0]), picks[1..]))
  }

  /** The notices arrive in any order. */
  function Spread(n: Net, closed: Process, f: Flood, picks: seq<nat>): Flood
    requires Legal(n, closed, f, picks)
    decreases |picks|
  {
    if picks == [] then f else Spread(n, closed, Arrival(n, closed, f, picks[0]), picks[1..])
  }

  /** The processes that must hear that the link from `x` to `closed` is gone. */
  predicate Hears(n: Net, x: Process, closed: Process, p: Process) {
    && p != x && p != closed && Exists(n, p)
    && match closed
       case Root => p.Client? && User(p.u) == x
       case User(u) => !p.Root? && p.u != u && (u == n.sandbox || p.u == n.sandbox)
       case Client(u, _) => p.Root? || p.u == u || u == n.sandbox || p.u == n.sandbox
  }

  /** The processes a notice will still reach. */
  predicate Reaches(n: Net, closed: Process, m: Notice, p: Process) {
    match m.to
    case Client(_, _) => p == m.to
    case User(v) => !p.Root? && p.u == v && Exists(n, p)
    case Root => p.Root? || (!closed.Root? && p.u != closed.u && Exists(n, p) && (closed.u == n.sandbox || p.u == n.sandbox))
  }

  function Future(n: Net, closed: Process, flying: seq<Notice>, p: Process): nat {
    if flying == [] then 0
    else (if Reaches(n, closed, flying[0], p) then 1 else 0) + Future(n, closed, flying[1..], p)
  }

  function Count(told: seq<Process>, p: Process): nat {
    if told == [] then 0 else (if told[0] == p then 1 else 0) + Count(told[1..], p)
  }

  /** A notice that this flood can contain. */
  predicate Sound(n: Net, x: Process, closed: Process, m: Notice) {
    && Exists(n, m.to) && m.to != closed && m.to != x
    && match m.to
       case Client(u, _) => m.from == User(u)
       case User(v) => m.from == Root && !closed.Root? && v != closed.u
       case Root => closed.Client? && m.from == x
  }

  ghost predicate FloodOk(n: Net, x: Process, closed: Process, f: Flood) {
    && (forall p: Process | !p.Client? && Exists(n, p) && p != x ::
          p in f.tables && NoDuplicates(f.tables[p]) && forall q :: q in f.tables[p] <==> Linked(n, p, q))
    && (forall p: Process | p.Client? :: p !in f.tables)
    && (forall i :: 0 <= i < |f.flying| ==> Sound(n, x, closed, f.flying[i]))
    && (forall p :: Count(f.told, p) + Future(n, closed, f.flying, p) == (if Hears(n, x, closed, p) then 1 else 0))
  }

  /** The child or parent of `at` on the way to `p`. */
  function Toward(at: Process, p: Process): Process {
    match at
    case Root => if p.Root? then Root else User(p.u)
    case User(u) => if p.Client? && p.u == u then p else Root
    case Client(_, _) => p
  }

  lemma {:induction false} FutureAppend(n: Net, closed: Process, a: seq<Notice>, b: seq<Notice>, p: Process)
    ensures Future(n, closed, a + b, p) == Future(n, closed, a, p) + Future(n, closed, b, p)
  {
    hide Reaches;
    if a == [] {
      assert a + b == b;
    } else {
      FutureAppend(n, closed, a[1..], b, p);
      assert (a + b)[1..] == a[1..] + b;
    }
  }

  lemma {:induction false} CountAppend(a: seq<Process>, x: Process, p: Process)
    ensures Count(a + [x], p) == Count(a, p) + (if x == p then 1 else 0)
  {
    if a != [] {
      CountAppend(a[1..], x, p);
      assert (a + [x])[1..] == a[1..] + [x];
    }
  }

  /** Among letters to different processes at most the one toward `p` reaches it. */
  lemma {:induction false} FutureOfLetters(n: Net, closed: Process, to: seq<Process>, from: Process, p: Process, t: Process)
    requires NoDuplicates(to)
    requires forall q <- to :: Reaches(n, closed, Notice(q, from), p) ==> q == t
    ensures Future(n, closed, Letters(to, from), p) == if t in to && Reaches(n, closed, Notice(t, from), p) then 1 else 0
  {
    hide Reaches;
    if to != [] {
      FutureOfLetters(n, closed, to[1..], from, p, t);
    }
  }

  lemma {:induction false} LettersAre(to: seq<Process>, from: Process)
    ensures |Letters(to, from)| == |to|
    ensures forall i :: 0 <= i < |to| ==> Letters(to, from)[i] == Notice(to[i], from)
  {
    if to != [] {
      LettersAre(to[1..], from);
    }
  }

  lemma {:induction false} TellsAre(n: Net, p: Process, table: seq<Process>, closed: Process, from: Option<Process>)
    ensures forall q :: q in TellsOf(n, p, table, closed, from) <==> q in table && Tells(n, p, closed, from, q)
    ensures NoDuplicates(table) ==> NoDuplicates(TellsOf(n, p, table, closed, from))
  {
    hide Tells;
    if table != [] {
      TellsAre(n, p, table[1..], closed, from);
    }
  }

  lemma ForwardAre(n: Net, p: Process, table: seq<Process>, closed: Process, from: Option<Process>)
    requires NoDuplicates(table) && (closed in table || from.Some?)
    ensures forall q :: q in Forward(n, p, table, closed, from) <==> q in table && Tells(n, p, closed, from, q)
    ensures NoDuplicates(Forward(n, p, table, closed, from))
  {
    WithoutIs(table, closed);
    TellsAre(n, p, Without(table, closed), closed, from);
  }

  lemma TowardOnly(n: Net, x: Process, closed: Process, at: Process, q: Process, p: Process)
    requires NetOk(n) && Linked(n, at, q) && (q.Root? ==> closed.Client? && at == User(closed.u))
    ensures Reaches(n, closed, Notice(q, at), p) ==> q == Toward(at, p)
  {
  }

  lemma StartsOk(n: Net, tables: map<Process, seq<Process>>, x: Process, closed: Process)
    requires NetOk(n) && Tables(n, tables) && (forall p: Process | p.Client? :: p !in tables)
    requires Exists(n, x) && Linked(n, x, closed)
    ensures FloodOk(n, x, closed, Start(n, tables, x, closed))
  {
    var f := Start(n, tables, x, closed);
    var to := Forward(n, x, tables[x], closed, None);
    ForwardAre(n, x, tables[x], closed, None);
    LettersAre(to, x);
    forall i | 0 <= i < |f.flying| ensures Sound(n, x, closed, f.flying[i]) {
      assert to[i] in to;
    }
    forall p ensures Count(f.told, p) + Future(n, closed, f.flying, p) == if Hears(n, x, closed, p) then 1 else 0 {
      forall q | q in to ensures Reaches(n, closed, Notice(q, x), p) ==> q == Toward(x, p) {
        TowardOnly(n, x, closed, x, q, p);
      }
      FutureOfLetters(n, closed, to, x, p, Toward(x, p));
      StartReaches(n, x, closed, p);
    }
  }

  lemma StartReaches(n: Net, x: Process, closed: Process, p: Process)
    requires NetOk(n) && Exists(n, x) && Linked(n, x, closed)
    ensures var t := Toward(x, p);
            Linked(n, x, t) && Tells(n, x, closed, None, t) && Reaches(n, closed, Notice(t, x), p)
            <==> Hears(n, x, closed, p)
  {
  }

  /** What a notice still has to reach is its receiver and what the receiver passes on. */
  lemma Splits(n: Net, x: Process, closed: Process, m: Notice, p: Process)
    requires NetOk(n) && Sound(n, x, closed, m) && !m.to.Client? && Exists(n, x) && Linked(n, x, closed)
    ensures var t := Toward(m.to, p);
            (if Reaches(n, closed, m, p) then 1 else 0) ==
            (if m.to == p then 1 else 0)
            + (if Linked(n, m.to, t) && Tells(n, m.to, closed, Some(m.from), t) && Reaches(n, closed, Notice(t, m.to), p)
               then 1 else 0)
  {
  }

  lemma ArrivalOk(n: Net, x: Process, closed: Process, f: Flood, i: nat)
    requires NetOk(n) && Exists(n, x) && Linked(n, x, closed) && FloodOk(n, x, closed, f) && i < |f.flying|
    ensures FloodOk(n, x, closed, Arrival(n, closed, f, i))
  {
    var m := f.flying[i];
    var rest := f.flying[..i] + f.flying[i + 1..];
    var g := Arrival(n, closed, f, i);
    if m.to.Client? {
      forall p ensures Count(g.told, p) + Future(n, closed, g.flying, p) == if Hears(n, x, closed, p) then 1 else 0 {
        CountAppend(f.told, m.to, p);
        FutureSplit(n, closed, f.flying, i, p);
      }
    } else {
      var to := Forward(n, m.to, f.tables[m.to], closed, Some(m.from));
      ForwardAre(n, m.to, f.tables[m.to], closed, Some(m.from));
      assert closed !in f.tables[m.to];
      WithoutAbsent(f.tables[m.to], closed);
      LettersAre(to, m.to);
      forall k | 0 <= k < |to| ensures Sound(n, x, closed, Letters(to, m.to)[k]) {
        assert to[k] in to;
      }
      forall p ensures Count(g.told, p) + Future(n, closed, g.flying, p) == if Hears(n, x, closed, p) then 1 else 0 {
        CountAppend(f.told, m.to, p);
        FutureSplit(n, closed, f.flying, i, p);
        FutureAppend(n, closed, rest, Letters(to, m.to), p);
        forall q | q in to ensures Reaches(n, closed, Notice(q, m.to), p) ==> q == Toward(m.to, p) {
          TowardOnly(n, x, closed, m.to, q, p);
        }
        FutureOfLetters(n, closed, to, m.to, p, Toward(m.to, p));
        Splits(n, x, closed, m, p);
      }
    }
  }

  lemma FutureSplit(n: Net, closed: Process, flying: seq<Notice>, i: nat, p: Process)
    requires i < |flying|
    ensures Future(n, closed, flying, p) ==
            Future(n, closed, flying[..i] + flying[i + 1..], p) + (if Reaches(n, closed, flying[i], p) then 1 else 0)
  {
    hide Reaches;
    assert flying == flying[..i] + ([flying[i]] + flying[i + 1..]);
    FutureAppend(n, closed, flying[..i], [flying[i]] + flying[i + 1..], p);
    FutureAppend(n, closed, [flying[i]], flying[i + 1..], p);
    FutureAppend(n, closed, flying[..i], flying[i + 1..], p);
    assert Future(n, closed, [flying[i]], p) == if Reaches(n, closed, flying[i], p) then 1 else 0;
  }

  lemma {:induction false} SpreadOk(n: Net, x: Process, closed: Process, f: Flood, picks: seq<nat>)
    requires NetOk(n) && Exists(n, x) && Linked(n, x, closed) && FloodOk(n, x, closed, f) && Legal(n, closed, f, picks)
    ensures FloodOk(n, x, closed, Spread(n, closed, f, picks))
    ensures |Spread(n, closed, f, picks).told| == |f.told| + |picks|
    decreases |picks|
  {
    hide FloodOk;
    if picks != [] {
      ArrivalOk(n, x, closed, f, picks[0]);
      SpreadOk(n, x, closed, Arrival(n, closed, f, picks[0]), picks[1..]);
    }
  }

  function Everyone(n: Net): set<Process>
    requires n.clients.Keys == n.users
  {
    {Root} + (set u | u in n.users :: User(u)) + (set u, c | u in n.users && c in n.clients[u] :: Client(u, c))
  }

  lemma {:induction false} CountIn(told: seq<Process>, p: Process)
    ensures Count(told, p) > 0 <==> p in told
  {
    if told != [] {
      CountIn(told[1..], p);
    }
  }

  lemma {:induction false} CountTwice(told: seq<Process>, i: nat, j: nat)
    requires i < j < |told|
    ensures told[i] == told[j] ==> Count(told, told[i]) >= 2
  {
    if i == 0 {
      CountIn(told[1..], told[j]);
      assert told[j] == told[1..][j - 1];
    } else {
      CountTwice(told[1..], i - 1, j - 1);
    }
  }

  lemma {:induction false} FewEnough(told: seq<Process>, all: set<Process>)
    requires NoDuplicates(told) && forall p <- told :: p in all
    ensures |told| <= |all|
  {
    if told != [] {
      FewEnough(told[1..], all - {told[0]});
    }
  }

  /** Closing one connection: in whatever order the notices arrive, there are finitely many,
      nobody is told twice, nobody is told who may not be, and when no notice is left
      everybody who must hear it has. */
  lemma EachToldOnce(n: Net, tables: map<Process, seq<Process>>, x: Process, closed: Process, picks: seq<nat>)
    requires NetOk(n) && Tables(n, tables) && (forall p: Process | p.Client? :: p !in tables)
    requires Exists(n, x) && Linked(n, x, closed)
    requires Legal(n, closed, Start(n, tables, x, closed), picks)
    ensures var f := Spread(n, closed, Start(n, tables, x, closed), picks);
            && |f.told| == |picks| <= |Everyone(n)|
            && NoDuplicates(f.told)
            && (forall p <- f.told :: Hears(n, x, closed, p))
            && (f.flying == [] ==> forall p :: p in f.told <==> Hears(n, x, closed, p))
  {
    var start := Start(n, tables, x, closed);
    var f := Spread(n, closed, start, picks);
    StartsOk(n, tables, x, closed);
    SpreadOk(n, x, closed, start, picks);
    ToldOk(n, x, closed, f);
    FewEnough(f.told, Everyone(n));
  }

  lemma ToldOk(n: Net, x: Process, closed: Process, f: Flood)
    requires NetOk(n) && FloodOk(n, x, closed, f)
    ensures NoDuplicates(f.told)
    ensures forall p <- f.told :: Hears(n, x, closed, p) && p in Everyone(n)
    ensures f.flying == [] ==> forall p :: p in f.told <==> Hears(n, x, closed, p)
  {
    forall p ensures p in f.told <==> Count(f.told, p) > 0 {
      CountIn(f.told, p);
    }
    forall i, j | 0 <= i < j < |f.told| ensures f.told[i] != f.told[j] {
      CountTwice(f.told, i, j);
      assert Count(f.told, f.told[i]) <= 1;
    }
    forall p | p in f.told ensures Hears(n, x, closed, p) && p in Everyone(n) {
      assert Count(f.told, p) > 0;
    }
  }
}
