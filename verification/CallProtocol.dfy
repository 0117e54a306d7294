/** The nested-call protocol of all processes together, as a transition system.

    Threads send synchronous requests, block in `wait_for_response`, and serve callbacks
    from their own queue while blocked; idle or running threads may also take requests from
    their process's default queue. A message carries channels and thread ids but no call id.
    Call numbers below are observers only: no step reads one to decide anything. */
module CallProtocol {
  import opened Options
  import opened ThreadContexts

  datatype Thread = Thread(proc: nat, tid: ThreadId)

  datatype Message = Message(
    call: nat,               // observer
    isRequest: bool,
    system: bool,            // ping or reflect: answered by the read loop itself
    src: Channel, srcThread: ThreadId,
    dest: Channel, destThread: ThreadId)

  /** One frame of a thread's machine stack. */
  datatype Frame =
    | Wait(call: nat, dest: Channel)                  // in wait_for_response
    | Serve(call: nat, origin: Origin, saved: Saved)  // in process_request

  datatype ThreadState = ThreadState(ctx: Context, stack: seq<Frame>, queue: seq<Message>)

  datatype Place = OnWire | InThreadQueue | InDefaultQueue

  /** Where a call is. Only used to state properties. */
  datatype Status =
    | Sent(msg: Message, at: Place)
    | Served(server: Thread, pos: nat)
    | Answered(msg: Message, at: Place)
    | Returned

  datatype CallRecord = CallRecord(caller: Thread, pos: nat, status: Status)

  datatype State = State(
    threads: map<Thread, ThreadState>,
    wire: set<Message>,
    defaultQueues: map<nat, seq<Message>>,
    dropped: set<Message>,
    calls: seq<CallRecord>)

  datatype Event =
    | NewThread(t: Thread)
    | SwitchCompartment(t: Thread, cmpt: nat)
    | SendRequest(t: Thread, dest: Channel, system: bool)
    | Deliver(m: Message)
    | TakeOwn(t: Thread, found: bool)
    | TakeDefault(t: Thread, found: bool)
    | Finish(t: Thread)

  const Init := State(map[], {}, map[], {}, [])

  function Stack(s: State, t: Thread): seq<Frame> {
    if t in s.threads then s.threads[t].stack else []
  }

  function Queue(s: State, t: Thread): seq<Message> {
    if t in s.threads then s.threads[t].queue else []
  }

  function DefaultQueue(s: State, p: nat): seq<Message> {
    if p in s.defaultQueues then s.defaultQueues[p] else []
  }

  predicate Waiting(s: State, t: Thread) {
    var k := Stack(s, t);
    |k| > 0 && k[|k| - 1].Wait?
  }

  predicate Running(s: State, t: Thread) {
    t in s.threads && !Waiting(s, t)
  }

  function Top(s: State, t: Thread): Frame
    requires Stack(s, t) != []
  {
    Stack(s, t)[|Stack(s, t)| - 1]
  }

  function Addressee(m: Message): Thread {
    Thread(m.dest.proc, m.destThread)
  }

  function SetStatus(calls: seq<CallRecord>, c: nat, st: Status): seq<CallRecord> {
    if c < |calls| then calls[c := calls[c].(status := st)] else calls
  }

  /** The answer to `m`, sent by the thread whose id is `tid`. */
  function Reply(m: Message, tid: ThreadId): Message {
    Message(m.call, false, m.system, m.dest, tid, m.src, m.srcThread)
  }

  function OriginOf(m: Message): Origin {
    Origin(m.src, m.srcThread, m.dest.cmpt)
  }

  predicate Enabled(s: State, e: Event) {
    match e
    case NewThread(t) => t !in s.threads && t.tid != 0
    case SwitchCompartment(t, _) => Running(s, t)
    case SendRequest(t, _, _) => Running(s, t)
    case Deliver(m) => m in s.wire
    case TakeOwn(t, _) => Waiting(s, t) && Queue(s, t) != []
    case TakeDefault(t, _) => Running(s, t) && DefaultQueue(s, t.proc) != []
    case Finish(t) => Running(s, t) && Stack(s, t) != []
  }

  /** One step; an event that is not possible changes nothing. */
  function Next(s: State, e: Event): State {
    if !Enabled(s, e) then s else
    match e
    case NewThread(t) =>
      s.(threads := s.threads[t := ThreadState(Context(map[], 0), [], [])])
    case SwitchCompartment(t, cmpt) =>
      var ts := s.threads[t];
      s.(threads := s.threads[t := ts.(ctx := ts.ctx.(cmpt := cmpt))])
    case SendRequest(t, dest, system) => DoSend(s, t, dest, system)
    case Deliver(m) => DoDeliver(s, m)
    case TakeOwn(t, found) =>
      var ts := s.threads[t];
      var m := ts.queue[0];
      var s1 := s.(threads := s.threads[t := ts.(queue := ts.queue[1..])]);
      if m.isRequest then DoProcess(s1, t, m, found)
      else DoReturn(s1, t)
    case TakeDefault(t, found) =>
      var q := DefaultQueue(s, t.proc);
      DoProcess(s.(defaultQueues := s.defaultQueues[t.proc := q[1..]]), t, q[0], found)
    case Finish(t) => DoFinish(s, t)
  }

  /** `send_request` up to the wait: address the message through the channel table. */
  function DoSend(s: State, t: Thread, dest: Channel, system: bool): State
    requires t in s.threads
  {
    var ts := s.threads[t];
    var c := |s.calls|;
    var m := Message(c, true, system, Channel(t.proc, ts.ctx.cmpt), t.tid, dest, Target(ts.ctx, dest));
    s.(threads := s.threads[t := ts.(stack := ts.stack + [Wait(c, dest)])],
       wire := s.wire + {m},
       calls := s.calls + [CallRecord(t, |ts.stack|, Sent(m, OnWire))])
  }

  /** `run_read_loop` on one message. The read loop answers system requests itself, queues
      addressed messages on their thread, and other requests on the default queue. */
  function DoDeliver(s: State, m: Message): State
    requires m in s.wire
  {
    var s1 := s.(wire := s.wire - {m});
    if m.isRequest && m.system then DoAnswer(s1, m, Reply(m, 0))
    else if m.destThread != 0 then
      if Addressee(m) in s.threads then ToThreadQueue(s1, m) else s1.(dropped := s1.dropped + {m})
    else if m.isRequest then ToDefaultQueue(s1, m)
    else s1.(dropped := s1.dropped + {m})
  }

  function DoAnswer(s: State, m: Message, r: Message): State {
    s.(wire := s.wire + {r}, calls := SetStatus(s.calls, m.call, Answered(r, OnWire)))
  }

  function QueuedStatus(m: Message, at: Place): Status {
    if m.isRequest then Sent(m, at) else Answered(m, at)
  }

  function ToThreadQueue(s: State, m: Message): State
    requires Addressee(m) in s.threads
  {
    var ts := s.threads[Addressee(m)];
    s.(threads := s.threads[Addressee(m) := ts.(queue := ts.queue + [m])],
       calls := SetStatus(s.calls, m.call, QueuedStatus(m, InThreadQueue)))
  }

  function ToDefaultQueue(s: State, m: Message): State {
    s.(defaultQueues := s.defaultQueues[m.dest.proc := DefaultQueue(s, m.dest.proc) + [m]],
       calls := SetStatus(s.calls, m.call, Sent(m, InDefaultQueue)))
  }

  /** `process_request` up to the handler; a missing compartment is answered at once. */
  function DoProcess(s: State, t: Thread, m: Message, found: bool): State
    requires t in s.threads
  {
    if found then DoServe(s, t, m) else DoAnswer(s, m, Reply(m, t.tid))
  }

  function DoServe(s: State, t: Thread, m: Message): State
    requires t in s.threads
  {
    var ts := s.threads[t];
    var o := OriginOf(m);
    s.(threads := s.threads[t := ts.(ctx := Enter(ts.ctx, o), stack := ts.stack + [Serve(m.call, o, Save(ts.ctx, o))])],
       calls := SetStatus(s.calls, m.call, Served(t, |ts.stack|)))
  }

  /** `wait_for_response` returns: whatever response came ends the innermost wait. */
  function DoReturn(s: State, t: Thread): State
    requires t in s.threads && s.threads[t].stack != []
  {
    var ts := s.threads[t];
    var n := |ts.stack| - 1;
    s.(threads := s.threads[t := ts.(stack := ts.stack[..n])],
       calls := SetStatus(s.calls, ts.stack[n].call, Returned))
  }

  /** The handler is done: send the response and restore the context. */
  function DoFinish(s: State, t: Thread): State
    requires Running(s, t) && Stack(s, t) != []
  {
    var ts := s.threads[t];
    var n := |ts.stack| - 1;
    var f := ts.stack[n];
    var r := Message(f.call, false, false, Channel(t.proc, f.origin.cmpt), t.tid, f.origin.src, f.origin.thread);
    s.(threads := s.threads[t := ts.(ctx := Leave(ts.ctx, f.origin, f.saved), stack := ts.stack[..n])],
       wire := s.wire + {r},
       calls := SetStatus(s.calls, f.call, Answered(r, OnWire)))
  }

  function Run(events: seq<Event>): State {
    if events == [] then Init
    else Next(Run(events[..|events| - 1]), events[|events| - 1])
  }

  // ---- The invariant ----

  /** The requests in progress on a stack, outermost first. */
  function InProgress(stack: seq<Frame>): seq<Origin> {
    if stack == [] then []
    else
      var n := |stack| - 1;
      InProgress(stack[..n]) + if stack[n].Serve? then [stack[n].origin] else []
  }

  /** Every Serve frame saved what the scan of the frames below it gives. */
  ghost predicate SavedOk(stack: seq<Frame>) {
    forall i :: 0 <= i < |stack| && stack[i].Serve? ==>
      stack[i].saved.oldThread == Scan(InProgress(stack[..i]), stack[i].origin.src)
  }

  ghost predicate ContextOk(ts: ThreadState) {
    Agrees(ts.ctx.threads, InProgress(ts.stack)) && SavedOk(ts.stack)
  }

  ghost predicate IsServedAt(s: State, c: nat, t: Thread, i: int) {
    c < |s.calls| && s.calls[c].status.Served? && s.calls[c].status.server == t && s.calls[c].status.pos == i
  }

  ghost predicate FrameOk(s: State, t: Thread, i: nat)
    requires i < |Stack(s, t)|
  {
    var k := Stack(s, t);
    match k[i]
    case Wait(c, dest) =>
      c < |s.calls| && s.calls[c].caller == t && s.calls[c].pos == i && !s.calls[c].status.Returned?
    case Serve(c, o, _) =>
      IsServedAt(s, c, t, i) && Thread(o.src.proc, o.thread) == s.calls[c].caller
  }

  /** The frame above a wait serves a callback of the thread that is processing the awaited
      call, and that thread issued the callback above its frame for that call. */
  ghost predicate Nested(s: State, t: Thread, i: nat)
    requires i + 1 < |Stack(s, t)|
  {
    var k := Stack(s, t);
    k[i].Wait? ==>
      k[i + 1].Serve? && k[i].call < |s.calls| && k[i + 1].call < |s.calls|
      && var q := s.calls[k[i + 1].call];
         s.calls[k[i].call].status.Served?
         && s.calls[k[i].call].status.server == q.caller && s.calls[k[i].call].status.pos < q.pos
  }

  ghost predicate IsTop(s: State, c: nat)
    requires c < |s.calls|
  {
    s.calls[c].pos == |Stack(s, s.calls[c].caller)| - 1
  }

  /** A request addressed to a thread: that thread waits for a call which the sender is
      processing, below the frame where it sent the request. */
  ghost predicate Direct(s: State, c: nat, m: Message)
    requires c < |s.calls|
  {
    m.destThread != 0 ==>
      var t := Addressee(m);
      Waiting(s, t) && Top(s, t).call < |s.calls|
      && var r := s.calls[Top(s, t).call];
         r.status.Served? && r.status.server == s.calls[c].caller && r.status.pos < s.calls[c].pos
  }

  ghost predicate RequestOk(s: State, c: nat, m: Message)
    requires c < |s.calls|
  {
    var call := s.calls[c];
    m.call == c && m.isRequest && Thread(m.src.proc, m.srcThread) == call.caller
    && IsTop(s, c) && Waiting(s, call.caller) && Top(s, call.caller) == Wait(c, m.dest)
    && Direct(s, c, m)
  }

  ghost predicate ResponseOk(s: State, c: nat, m: Message)
    requires c < |s.calls|
  {
    var call := s.calls[c];
    m.call == c && !m.isRequest && Addressee(m) == call.caller
    && IsTop(s, c) && Waiting(s, call.caller) && Top(s, call.caller) == Wait(c, m.src)
  }

  ghost predicate Holds(s: State, m: Message, at: Place) {
    match at
    case OnWire => m in s.wire
    case InThreadQueue => Queue(s, Addressee(m)) == [m]
    case InDefaultQueue => m in DefaultQueue(s, m.dest.proc) && m.destThread == 0
  }

  ghost predicate CallOk(s: State, c: nat)
    requires c < |s.calls|
  {
    var call := s.calls[c];
    match call.status
    case Sent(m, at) => RequestOk(s, c, m) && Holds(s, m, at)
    case Answered(m, at) => ResponseOk(s, c, m) && Holds(s, m, at) && at != InDefaultQueue
    case Served(server, i) =>
      i < |Stack(s, server)| && Stack(s, server)[i].Serve? && Stack(s, server)[i].call == c
      && call.pos < |Stack(s, call.caller)|
      && Stack(s, call.caller)[call.pos] == Wait(c, Channel(server.proc, Stack(s, server)[i].origin.cmpt))
    case Returned => true
  }

  ghost predicate MessageIs(s: State, m: Message, at: Place) {
    m.call < |s.calls|
    && (s.calls[m.call].status == Sent(m, at) || s.calls[m.call].status == Answered(m, at))
  }

  ghost predicate ThreadsOk(s: State) {
    && (forall t <- s.threads :: t.tid != 0 && ContextOk(s.threads[t]))
    && (forall t <- s.threads, i | 0 <= i < |Stack(s, t)| :: FrameOk(s, t, i))
    && (forall t <- s.threads, i | 0 <= i < |Stack(s, t)| - 1 :: Nested(s, t, i))
  }

  ghost predicate QueueOk(s: State, t: Thread) {
    var q := Queue(s, t);
    |q| <= 1 && (q != [] ==> Addressee(q[0]) == t && MessageIs(s, q[0], InThreadQueue))
  }

  ghost predicate DefaultOk(s: State, p: nat) {
    var q := DefaultQueue(s, p);
    && (forall i :: 0 <= i < |q| ==> q[i].dest.proc == p && MessageIs(s, q[i], InDefaultQueue))
    && (forall i, j :: 0 <= i < j < |q| ==> q[i] != q[j])
  }

  ghost predicate MessagesOk(s: State) {
    && s.dropped == {}
    && (forall m <- s.wire :: MessageIs(s, m, OnWire))
    && (forall t <- s.threads :: QueueOk(s, t))
    && (forall p :: DefaultOk(s, p))
  }

  ghost predicate Inv(s: State) {
    ThreadsOk(s) && MessagesOk(s) && forall c :: 0 <= c < |s.calls| ==> CallOk(s, c)
  }

  // ---- Facts about invariant states ----

  /** The message of a call, if there is one, is consistent with the stacks. */
  ghost predicate PendingOk(s: State, c: nat)
    requires c < |s.calls|
  {
    match s.calls[c].status
    case Sent(m, _) => RequestOk(s, c, m)
    case Answered(m, _) => ResponseOk(s, c, m)
    case _ => true
  }

  predicate Pending(s: State, c: nat) {
    c < |s.calls| && (s.calls[c].status.Sent? || s.calls[c].status.Answered?)
  }

  /** At most one message can be underway to a thread. */
  lemma OneMessagePerThread(s: State, c1: nat, c2: nat)
    requires Pending(s, c1) && Pending(s, c2) && PendingOk(s, c1) && PendingOk(s, c2)
    requires s.calls[c1].status.msg.destThread != 0
    requires Addressee(s.calls[c1].status.msg) == Addressee(s.calls[c2].status.msg)
    ensures c1 == c2
  {
    var m1, m2 := s.calls[c1].status.msg, s.calls[c2].status.msg;
    var t := Addressee(m1);
    if m1.isRequest && m2.isRequest {
      var u := s.calls[c1].caller;
      assert u == s.calls[Top(s, t).call].status.server == s.calls[c2].caller;
      assert Top(s, u).call == c1 && Top(s, u).call == c2;
    }
  }

  /** A callback served above the wait at `i`: it was issued by the thread serving the
      awaited call, from a wait above the frame that serves it. */
  lemma CallbackAbove(s: State, u: Thread, i: nat)
    requires Inv(s) && i + 1 < |Stack(s, u)| && Stack(s, u)[i].Wait?
    ensures
      var k := Stack(s, u);
      k[i].call < |s.calls| && k[i + 1].call < |s.calls|
      && var st, q := s.calls[k[i].call].status, s.calls[k[i + 1].call];
         st.Served? && st.server == q.caller && st.pos < q.pos < |Stack(s, q.caller)|
         && Stack(s, q.caller)[q.pos].Wait? && Stack(s, q.caller)[q.pos].call == k[i + 1].call
         && k[i + 1].Serve? && q.status == Served(u, i + 1)
  {
    hide MessagesOk, ContextOk;
    assert Nested(s, u, i) && FrameOk(s, u, i + 1);
    assert CallOk(s, Stack(s, u)[i + 1].call);
  }

  /** The caller of a request in progress waits for it. */
  lemma CallerWaits(s: State, x: Thread, i: nat)
    requires Inv(s) && i < |Stack(s, x)| && Stack(s, x)[i].Serve?
    ensures
      var c := Stack(s, x)[i].call;
      c < |s.calls| && s.calls[c].status == Served(x, i)
      && var u := s.calls[c].caller;
         s.calls[c].pos < |Stack(s, u)| && Stack(s, u)[s.calls[c].pos].Wait? && Stack(s, u)[s.calls[c].pos].call == c
  {
    hide MessagesOk, ContextOk, Nested;
    assert FrameOk(s, x, i);
    assert CallOk(s, Stack(s, x)[i].call);
  }

  /** A running thread that has a request of `t` in progress: `t` waits for a call that the
      running thread is processing. Follows the call chain upwards to its end. */
  lemma {:induction false} ChainEnd(s: State, x: Thread, i: nat)
    requires Inv(s) && Running(s, x)
    requires i < |Stack(s, x)| && Stack(s, x)[i].Serve?
    ensures Stack(s, x)[i].call < |s.calls|
    ensures WaitsFor(s, s.calls[Stack(s, x)[i].call].caller, x)
    decreases |Stack(s, x)| - i
  {
    hide Inv;
    CallerWaits(s, x, i);
    var p := Stack(s, x)[i].call;
    var t := s.calls[p].caller;
    var at := s.calls[p].pos;
    if at + 1 < |Stack(s, t)| {
      CallbackAbove(s, t, at);
      var j := s.calls[Stack(s, t)[at + 1].call].pos;
      CallbackAbove(s, x, j);
      ChainEnd(s, x, j + 1);
    }
  }

  /** `u` waits for a call that `t` is serving, below the top of `t`'s stack. */
  ghost predicate WaitsFor(s: State, u: Thread, t: Thread) {
    Waiting(s, u) && Top(s, u).call < |s.calls|
    && var st := s.calls[Top(s, u).call].status;
       st.Served? && st.server == t && st.pos < |Stack(s, t)|
  }

  // ---- Every step keeps the invariant ----

  /** Only call `c` has a new record (new calls may follow). */
  ghost predicate OnlyCall(s: State, s': State, c: nat) {
    |s.calls| <= |s'.calls| && forall i :: 0 <= i < |s.calls| && i != c ==> s'.calls[i] == s.calls[i]
  }

  /** Call `c` has no message in any place. */
  ghost predicate Absent(s: State, c: nat) {
    Pending(s, c) ==>
      var m := s.calls[c].status.msg;
      m !in s.wire && (forall t :: m !in Queue(s, t)) && (forall p :: m !in DefaultQueue(s, p))
  }

  lemma MessageCarry(s: State, s': State, c: nat, x: Message, at: Place)
    requires OnlyCall(s, s', c) && MessageIs(s, x, at) && (Pending(s, c) ==> x != s.calls[c].status.msg)
    ensures MessageIs(s', x, at)
  {
  }

  lemma QueueCarry(s: State, s': State, c: nat, t: Thread)
    requires OnlyCall(s, s', c) && Absent(s, c) && QueueOk(s, t) && Queue(s', t) == Queue(s, t)
    ensures QueueOk(s', t)
  {
    hide MessageIs;
    var q := Queue(s, t);
    if q != [] {
      assert q[0] in q;
      MessageCarry(s, s', c, q[0], InThreadQueue);
    }
  }

  lemma DefaultCarry(s: State, s': State, c: nat, p: nat)
    requires OnlyCall(s, s', c) && Absent(s, c) && DefaultOk(s, p)
    ensures var q := DefaultQueue(s, p); forall i :: 0 <= i < |q| ==> MessageIs(s', q[i], InDefaultQueue)
    ensures DefaultQueue(s', p) == DefaultQueue(s, p) ==> DefaultOk(s', p)
  {
    hide MessageIs;
    var q := DefaultQueue(s, p);
    forall i | 0 <= i < |q| ensures MessageIs(s', q[i], InDefaultQueue) {
      assert q[i] in q;
      MessageCarry(s, s', c, q[i], InDefaultQueue);
    }
  }

  /** Messages stay accounted for when only call `c`, which has none in place, changes, and
      only the queue of `t0`, the default queue of `p0` and the wire gain messages. */
  lemma MessagesCarry(s: State, s': State, c: nat, t0: Thread, p0: nat)
    requires MessagesOk(s) && OnlyCall(s, s', c) && Absent(s, c)
    requires s'.dropped == {} && s'.threads.Keys == s.threads.Keys
    requires forall x <- s'.wire :: x in s.wire || MessageIs(s', x, OnWire)
    requires forall u | u != t0 :: Queue(s', u) == Queue(s, u)
    requires Queue(s', t0) == Queue(s, t0) || QueueOk(s', t0)
    requires forall p | p != p0 :: DefaultQueue(s', p) == DefaultQueue(s, p)
    requires DefaultQueue(s', p0) == DefaultQueue(s, p0) || DefaultOk(s', p0)
    ensures MessagesOk(s')
  {
    hide MessageIs, QueueOk, DefaultOk;
    forall x | x in s'.wire ensures MessageIs(s', x, OnWire) {
      if x in s.wire { MessageCarry(s, s', c, x, OnWire); }
    }
    hide OnlyCall, Absent;
    forall t | t in s.threads ensures QueueOk(s', t) {
      if Queue(s', t) == Queue(s, t) { QueueCarry(s, s', c, t); }
    }
    forall p: nat ensures DefaultOk(s', p) {
      if DefaultQueue(s', p) == DefaultQueue(s, p) { DefaultCarry(s, s', c, p); }
    }
  }

  /** The two states show the same stacks, queues, wire and calls. */
  ghost predicate SameShape(s: State, s': State) {
    && s'.calls == s.calls && s'.wire == s.wire && s'.dropped == s.dropped
    && (forall u :: Stack(s', u) == Stack(s, u))
    && (forall u :: Queue(s', u) == Queue(s, u))
    && (forall p :: DefaultQueue(s', p) == DefaultQueue(s, p))
  }

  lemma SameShapeKeeps(s: State, s': State)
    requires Inv(s) && SameShape(s, s')
    requires forall u <- s'.threads :: u.tid != 0 && ContextOk(s'.threads[u])
    ensures Inv(s')
  {
    forall u, i: nat | u in s'.threads && i < |Stack(s', u)| ensures FrameOk(s', u, i) {
      assert u in s.threads && FrameOk(s, u, i);
    }
    forall u, i: nat | u in s'.threads && i < |Stack(s', u)| - 1 ensures Nested(s', u, i) {
      assert u in s.threads && Nested(s, u, i);
    }
    forall c: nat | c < |s.calls| ensures CallOk(s', c) { SameShapeCall(s, s', c); }
    forall p: nat ensures DefaultOk(s', p) { assert DefaultOk(s, p); }
    forall u | u in s'.threads ensures QueueOk(s', u) { assert u in s.threads ==> QueueOk(s, u); }
  }

  lemma SameShapeCall(s: State, s': State, c: nat)
    requires SameShape(s, s') && c < |s.calls| && CallOk(s, c)
    ensures CallOk(s', c)
  {
  }

  lemma KeepsNewThread(s: State, t: Thread)
    requires Inv(s) && t !in s.threads && t.tid != 0
    ensures Inv(Next(s, NewThread(t)))
  {
    SameShapeKeeps(s, Next(s, NewThread(t)));
  }

  lemma KeepsSwitch(s: State, t: Thread, cmpt: nat)
    requires Inv(s) && Running(s, t)
    ensures Inv(Next(s, SwitchCompartment(t, cmpt)))
  {
    hide ThreadsOk, MessagesOk, CallOk, ContextOk;
    var s' := Next(s, SwitchCompartment(t, cmpt));
    forall u | u in s'.threads ensures u.tid != 0 && ContextOk(s'.threads[u]) {
      ThreadIsOk(s, u);
      if u == t { SwitchContext(s.threads[t], cmpt); }
    }
    SameShapeKeeps(s, s');
  }

  lemma SwitchContext(ts: ThreadState, cmpt: nat)
    requires ContextOk(ts)
    ensures ContextOk(ts.(ctx := ts.ctx.(cmpt := cmpt)))
  {
  }

  /** A frame stays right when its call keeps its caller and position and, if the frame
      serves it, its status. */
  lemma FrameKept(s: State, s': State, t: Thread, i: nat)
    requires i < |Stack(s, t)| && i < |Stack(s', t)| && Stack(s', t)[i] == Stack(s, t)[i]
    requires FrameOk(s, t, i) && |s.calls| <= |s'.calls|
    requires
      var f := Stack(s, t)[i];
      f.call < |s.calls| ==>
        s'.calls[f.call].caller == s.calls[f.call].caller && s'.calls[f.call].pos == s.calls[f.call].pos
        && (s'.calls[f.call].status == s.calls[f.call].status || (f.Wait? && !s'.calls[f.call].status.Returned?))
    ensures FrameOk(s', t, i)
  {
  }

  lemma NestedKept(s: State, s': State, t: Thread, i: nat)
    requires i + 1 < |Stack(s, t)| && i + 1 < |Stack(s', t)|
    requires Stack(s', t)[i] == Stack(s, t)[i] && Stack(s', t)[i + 1] == Stack(s, t)[i + 1]
    requires Nested(s, t, i) && |s.calls| <= |s'.calls|
    requires forall c :: 0 <= c < |s.calls| ==>
      s'.calls[c].caller == s.calls[c].caller && s'.calls[c].pos == s.calls[c].pos
      && (s.calls[c].status.Served? && s'.calls[c].status != s.calls[c].status ==> c != Stack(s, t)[i].call)
    ensures Nested(s', t, i)
  {
  }

  lemma InProgressPush(stack: seq<Frame>, f: Frame)
    ensures InProgress(stack + [f]) == InProgress(stack) + if f.Serve? then [f.origin] else []
  {
    assert (stack + [f])[..|stack|] == stack;
  }

  lemma SavedPush(stack: seq<Frame>, f: Frame)
    requires SavedOk(stack)
    requires f.Serve? ==> f.saved.oldThread == Scan(InProgress(stack), f.origin.src)
    ensures SavedOk(stack + [f])
  {
    var k := stack + [f];
    forall i | 0 <= i < |k| && k[i].Serve?
      ensures k[i].saved.oldThread == Scan(InProgress(k[..i]), k[i].origin.src)
    {
      assert k[..i] == if i < |stack| then stack[..i] else stack;
    }
  }

  /** The frame that an in-progress request comes from. */
  lemma {:induction false} InProgressFrame(stack: seq<Frame>, j: nat) returns (i: nat)
    requires j < |InProgress(stack)|
    ensures i < |stack| && stack[i].Serve? && stack[i].origin == InProgress(stack)[j]
  {
    var n := |stack| - 1;
    if j < |InProgress(stack[..n])| {
      i := InProgressFrame(stack[..n], j);
    } else {
      i := n;
    }
  }

  lemma CallHolds(s: State, c: nat)
    requires c < |s.calls| && CallOk(s, c)
    ensures s.calls[c].status.Sent? || s.calls[c].status.Answered? ==>
      Holds(s, s.calls[c].status.msg, s.calls[c].status.at)
  {
  }

  // Sending a request

  lemma SendDirect(s: State, t: Thread, dest: Channel)
    requires Inv(s) && Running(s, t) && Target(s.threads[t].ctx, dest) != 0
    ensures WaitsFor(s, Thread(dest.proc, Target(s.threads[t].ctx, dest)), t)
  {
    var k := Stack(s, t);
    assert ContextOk(s.threads[t]);
    assert Find(s.threads[t].ctx.threads, dest) == Scan(InProgress(k), dest);
    var j := ScanFindsFrame(InProgress(k), dest);
    var i := InProgressFrame(k, j);
    assert FrameOk(s, t, i);
    ChainEnd(s, t, i);
  }

  /** What the steps of a running thread do to the rest of the system: waiting threads
      keep their stacks, the mover's stack grows, and old calls keep their records. */
  ghost predicate Grows(s: State, s': State) {
    && (forall u :: Waiting(s, u) ==> Stack(s', u) == Stack(s, u))
    && (forall u :: Stack(s, u) <= Stack(s', u))
    && (forall u :: |Queue(s, u)| > 0 ==> Queue(s', u) == Queue(s, u))
  }

  lemma GrowsCall(s: State, s': State, c: nat)
    requires Grows(s, s') && c < |s.calls| && CallOk(s, c)
    requires |s.calls| <= |s'.calls| && forall i :: 0 <= i < |s.calls| ==> s'.calls[i] == s.calls[i]
    requires (s.calls[c].status.Sent? || s.calls[c].status.Answered?) ==>
      Holds(s', s.calls[c].status.msg, s.calls[c].status.at)
    ensures CallOk(s', c)
  {
  }

  lemma KeepsSend(s: State, t: Thread, dest: Channel, system: bool)
    requires Inv(s) && Running(s, t)
    ensures Inv(DoSend(s, t, dest, system))
  {
    hide FrameOk, Nested, CallOk, ContextOk, DoSend, MessagesOk, WaitsFor;
    var s' := DoSend(s, t, dest, system);
    SendShape(s, t, dest, system);
    forall u, i: nat | u in s'.threads && i < |Stack(s', u)| ensures FrameOk(s', u, i) {
      SendFrames(s, t, dest, system, u, i);
    }
    forall u, i: nat | u in s'.threads && i < |Stack(s', u)| - 1 ensures Nested(s', u, i) {
      SendNested(s, t, dest, system, u, i);
    }
    if Target(s.threads[t].ctx, dest) != 0 { SendDirect(s, t, dest); }
    SendContext(s, t, dest, system);
    SendMessages(s, t, dest, system);
    forall c: nat | c < |s'.calls| ensures CallOk(s', c) {
      if c < |s.calls| {
        SendOldCall(s, t, dest, system, c);
      } else {
        SendNewCall(s, t, dest, system);
      }
    }
  }

  lemma SendShape(s: State, t: Thread, dest: Channel, system: bool)
    requires Running(s, t)
    ensures
      var s' := DoSend(s, t, dest, system);
      && s'.threads.Keys == s.threads.Keys && |s'.calls| == |s.calls| + 1
      && (forall u | u in s.threads && u != t :: s'.threads[u] == s.threads[u])
  {
  }

  lemma SendMessages(s: State, t: Thread, dest: Channel, system: bool)
    requires Running(s, t) && MessagesOk(s)
    ensures MessagesOk(DoSend(s, t, dest, system))
  {
    hide MessagesOk;
    var s' := DoSend(s, t, dest, system);
    assert s.dropped == {} by { NoneDropped(s); }
    MessagesCarry(s, s', |s.calls|, t, 0);
  }

  lemma NoneDropped(s: State)
    requires MessagesOk(s)
    ensures s.dropped == {}
  {
  }

  lemma SendOldCall(s: State, t: Thread, dest: Channel, system: bool, c: nat)
    requires Running(s, t) && c < |s.calls| && CallOk(s, c)
    ensures CallOk(DoSend(s, t, dest, system), c)
  {
    hide CallOk;
    var s' := DoSend(s, t, dest, system);
    assert forall u :: Queue(s', u) == Queue(s, u);
    assert forall p :: DefaultQueue(s', p) == DefaultQueue(s, p);
    CallHolds(s, c);
    GrowsCall(s, s', c);
  }

  lemma SendContext(s: State, t: Thread, dest: Channel, system: bool)
    requires Inv(s) && Running(s, t)
    ensures ContextOk(DoSend(s, t, dest, system).threads[t])
  {
    var k := Stack(s, t);
    assert ContextOk(s.threads[t]);
    InProgressPush(k, Wait(|s.calls|, dest));
    SavedPush(k, Wait(|s.calls|, dest));
    assert InProgress(k + [Wait(|s.calls|, dest)]) == InProgress(k);
  }

  lemma SendFrames(s: State, t: Thread, dest: Channel, system: bool, u: Thread, i: nat)
    requires Inv(s) && Running(s, t) && i < |Stack(DoSend(s, t, dest, system), u)|
    ensures FrameOk(DoSend(s, t, dest, system), u, i)
  {
    if i < |Stack(s, u)| {
      assert FrameOk(s, u, i);
      FrameKept(s, DoSend(s, t, dest, system), u, i);
    }
  }

  lemma SendNested(s: State, t: Thread, dest: Channel, system: bool, u: Thread, i: nat)
    requires Inv(s) && Running(s, t) && i + 1 < |Stack(DoSend(s, t, dest, system), u)|
    ensures Nested(DoSend(s, t, dest, system), u, i)
  {
    if i + 1 < |Stack(s, u)| {
      assert Nested(s, u, i);
      NestedKept(s, DoSend(s, t, dest, system), u, i);
    }
  }

  lemma SendNewCall(s: State, t: Thread, dest: Channel, system: bool)
    requires Running(s, t)
    requires var tid := Target(s.threads[t].ctx, dest); tid != 0 ==> WaitsFor(s, Thread(dest.proc, tid), t)
    ensures CallOk(DoSend(s, t, dest, system), |s.calls|)
  {
    var s' := DoSend(s, t, dest, system);
    assert Stack(s', t) == Stack(s, t) + [Wait(|s.calls|, dest)];
    assert forall u | u != t :: Stack(s', u) == Stack(s, u);
  }

  // Messages taken from their place

  /** The invariant, except that message `m` has just been taken from where it was. */
  ghost predicate InHand(s: State, m: Message) {
    && ThreadsOk(s) && MessagesOk(s)
    && Pending(s, m.call) && s.calls[m.call].status.msg == m && PendingOk(s, m.call)
    && (forall c :: 0 <= c < |s.calls| && c != m.call ==> CallOk(s, c))
    && m !in s.wire && (forall t :: m !in Queue(s, t)) && (forall p :: m !in DefaultQueue(s, p))
  }

  /** `s1` is `s` with message `m` taken from its place; nothing else differs. */
  ghost predicate Taken(s: State, s1: State, m: Message) {
    && s1.calls == s.calls && s1.dropped == s.dropped && s1.threads.Keys == s.threads.Keys
    && (forall t <- s.threads :: s1.threads[t].stack == s.threads[t].stack && s1.threads[t].ctx == s.threads[t].ctx)
    && s1.wire == s.wire - {m}
    && (forall t :: Queue(s1, t) == if Queue(s, t) == [m] then [] else Queue(s, t))
    && (forall p :: m !in DefaultQueue(s1, p) &&
          (DefaultQueue(s1, p) == DefaultQueue(s, p)
           || (DefaultQueue(s, p) != [] && DefaultQueue(s, p)[0] == m && DefaultQueue(s1, p) == DefaultQueue(s, p)[1..])))
  }

  lemma TakenThreads(s: State, s1: State, m: Message)
    requires ThreadsOk(s) && Taken(s, s1, m)
    ensures ThreadsOk(s1)
  {
    forall t, i: nat | t in s1.threads && i < |Stack(s1, t)| ensures FrameOk(s1, t, i) {
      assert FrameOk(s, t, i);
      FrameKept(s, s1, t, i);
    }
    forall t, i: nat | t in s1.threads && i < |Stack(s1, t)| - 1 ensures Nested(s1, t, i) {
      assert Nested(s, t, i);
      NestedKept(s, s1, t, i);
    }
  }

  lemma TakenMessages(s: State, s1: State, m: Message)
    requires MessagesOk(s) && Taken(s, s1, m)
    ensures MessagesOk(s1)
  {
    forall p: nat ensures DefaultOk(s1, p) { assert DefaultOk(s, p); }
    forall u | u in s1.threads ensures QueueOk(s1, u) { assert QueueOk(s, u); }
  }

  /** A call keeps its condition when the stacks and records it depends on are kept. */
  lemma CallKept(s: State, s': State, c: nat)
    requires c < |s.calls| <= |s'.calls| && CallOk(s, c) && s'.calls[c] == s.calls[c]
    requires Pending(s, c) ==> PendingKept(s, s', c) && Holds(s', s.calls[c].status.msg, s.calls[c].status.at)
    requires s.calls[c].status.Served? ==>
      var st := s.calls[c].status;
      st.pos < |Stack(s', st.server)| && Stack(s', st.server)[st.pos] == Stack(s, st.server)[st.pos]
      && s.calls[c].pos < |Stack(s', s.calls[c].caller)|
      && Stack(s', s.calls[c].caller)[s.calls[c].pos] == Stack(s, s.calls[c].caller)[s.calls[c].pos]
    ensures CallOk(s', c)
  {
  }

  ghost predicate PendingKept(s: State, s': State, c: nat)
    requires Pending(s, c)
  {
    var m := s.calls[c].status.msg;
    && Stack(s', s.calls[c].caller) == Stack(s, s.calls[c].caller)
    && (m.isRequest && m.destThread != 0 ==>
          var t := Addressee(m);
          Stack(s', t) == Stack(s, t)
          && (Stack(s, t) != [] && Top(s, t).call < |s.calls| <= |s'.calls| ==>
                s'.calls[Top(s, t).call] == s.calls[Top(s, t).call]))
  }

  lemma TakenInHand(s: State, s1: State, m: Message, at: Place)
    requires Inv(s) && Taken(s, s1, m) && MessageIs(s, m, at)
    ensures InHand(s1, m)
  {
    hide ThreadsOk, MessagesOk, CallOk, PendingOk, Taken;
    TakenThreads(s, s1, m);
    TakenMessages(s, s1, m);
    TakenGone(s, s1, m);
    forall c: nat | c < |s.calls| && c != m.call ensures CallOk(s1, c) {
      assert CallOk(s, c);
      TakenCall(s, s1, m, c);
    }
    assert CallOk(s, m.call);
    TakenPending(s, s1, m, at);
  }

  lemma TakenGone(s: State, s1: State, m: Message)
    requires MessagesOk(s) && Taken(s, s1, m)
    ensures s1.calls == s.calls && m !in s1.wire
    ensures (forall t :: m !in Queue(s1, t)) && (forall p :: m !in DefaultQueue(s1, p))
  {
    forall t ensures m !in Queue(s1, t) {
      assert t in s.threads ==> |Queue(s, t)| <= 1;
    }
  }

  lemma TakenCall(s: State, s1: State, m: Message, c: nat)
    requires Taken(s, s1, m) && c < |s.calls| && c != m.call && CallOk(s, c)
    ensures CallOk(s1, c)
  {
    assert forall t :: Stack(s1, t) == Stack(s, t);
    if Pending(s, c) {
      var m' := s.calls[c].status.msg;
      assert m' != m;
      assert Holds(s1, m', s.calls[c].status.at);
    }
    CallKept(s, s1, c);
  }

  lemma TakenPending(s: State, s1: State, m: Message, at: Place)
    requires Taken(s, s1, m) && MessageIs(s, m, at) && CallOk(s, m.call)
    ensures Pending(s1, m.call) && s1.calls[m.call].status.msg == m && PendingOk(s1, m.call)
  {
    assert forall t :: Stack(s1, t) == Stack(s, t);
  }

  /** Message `m` has been dealt with: its call has the new status `st`, the mover `t` may
      have a longer stack, and places may have gained messages. */
  ghost predicate Handled(s: State, s': State, m: Message, st: Status, t: Thread) {
    && m.call < |s.calls| && s'.calls == s.calls[m.call := s.calls[m.call].(status := st)]
    && s'.threads.Keys == s.threads.Keys && s'.dropped == s.dropped && s.wire <= s'.wire
    && (forall u | u in s.threads && u != t :: Stack(s', u) == Stack(s, u) && s'.threads[u].ctx == s.threads[u].ctx)
    && Stack(s, t) <= Stack(s', t)
    && (forall u :: Queue(s, u) == [] || Queue(s', u) == Queue(s, u))
    && (forall p, x :: x in DefaultQueue(s, p) ==> x in DefaultQueue(s', p))
  }

  /** No message other than `m` depends on the stack of `t`. */
  ghost predicate Untouched(s: State, m: Message, t: Thread) {
    forall c: nat :: Pending(s, c) && c != m.call ==>
      s.calls[c].caller != t
      && (s.calls[c].status.msg.destThread != 0 ==> Addressee(s.calls[c].status.msg) != t)
  }

  lemma HandledCall(s: State, s': State, m: Message, st: Status, t: Thread, c: nat)
    requires Handled(s, s', m, st, t) && c < |s.calls| && c != m.call && CallOk(s, c)
    requires !s.calls[m.call].status.Served?
    requires Stack(s', t) == Stack(s, t) || Untouched(s, m, t)
    ensures CallOk(s', c)
  {
    assert forall u | u != t :: Stack(s', u) == Stack(s, u);
    if Pending(s, c) {
      var x := s.calls[c].status.msg;
      assert PendingKept(s, s', c);
      if s.calls[c].status.at == InThreadQueue { assert Queue(s, Addressee(x)) != []; }
    }
    CallKept(s, s', c);
  }

  lemma HandledFrames(s: State, s': State, m: Message, st: Status, t: Thread, u: Thread, i: nat)
    requires ThreadsOk(s) && Handled(s, s', m, st, t) && !s.calls[m.call].status.Served? && !st.Returned?
    requires u in s.threads && i < |Stack(s, u)|
    ensures FrameOk(s', u, i) && Stack(s', u)[i] == Stack(s, u)[i]
    ensures i + 1 < |Stack(s, u)| ==> Nested(s', u, i)
  {
    assert FrameOk(s, u, i);
    FrameKept(s, s', u, i);
    if i + 1 < |Stack(s, u)| {
      assert Nested(s, u, i);
      NestedKept(s, s', u, i);
    }
  }

  lemma HandledContext(s: State, s': State, m: Message, st: Status, t: Thread, u: Thread)
    requires ThreadsOk(s) && Handled(s, s', m, st, t) && u in s.threads && u != t
    ensures u.tid != 0 && ContextOk(s'.threads[u])
  {
    hide FrameOk, Nested;
    assert ContextOk(s.threads[u]);
    assert Stack(s', u) == Stack(s, u);
  }

  lemma HandledStack(s: State, s': State, m: Message, st: Status, t: Thread, u: Thread)
    requires Handled(s, s', m, st, t)
    ensures (u in s'.threads <==> u in s.threads) && (u != t ==> Stack(s', u) == Stack(s, u))
  {
  }

  lemma HandledThreads(s: State, s': State, m: Message, st: Status, t: Thread)
    requires ThreadsOk(s) && Handled(s, s', m, st, t) && !s.calls[m.call].status.Served? && !st.Returned?
    requires t in s.threads ==> t.tid != 0 && ContextOk(s'.threads[t])
    requires var k := Stack(s, t);
             Stack(s', t) == k || (|Stack(s', t)| == |k| + 1 && FrameOk(s', t, |k|) && (k != [] ==> Nested(s', t, |k| - 1)))
    ensures ThreadsOk(s')
  {
    hide FrameOk, Nested, ContextOk, Handled;
    forall u | u in s'.threads ensures u.tid != 0 && ContextOk(s'.threads[u]) {
      HandledStack(s, s', m, st, t, u);
      if u != t { HandledContext(s, s', m, st, t, u); }
    }
    forall u, i: nat | u in s'.threads && i < |Stack(s', u)| ensures FrameOk(s', u, i) {
      HandledStack(s, s', m, st, t, u);
      if i < |Stack(s, u)| { HandledFrames(s, s', m, st, t, u, i); }
    }
    forall u, i: nat | u in s'.threads && i < |Stack(s', u)| - 1 ensures Nested(s', u, i) {
      HandledStack(s, s', m, st, t, u);
      if i < |Stack(s, u)| - 1 { HandledFrames(s, s', m, st, t, u, i); }
    }
  }

  lemma ThreadIsOk(s: State, t: Thread)
    requires ThreadsOk(s)
    ensures t in s.threads ==> t.tid != 0 && ContextOk(s.threads[t])
  {
    hide FrameOk, Nested, ContextOk;
  }

  /** Answering a request at once. */
  lemma AnswerKeeps(s: State, m: Message, tid: ThreadId)
    requires InHand(s, m) && m.isRequest
    ensures Inv(DoAnswer(s, m, Reply(m, tid)))
  {
    var r := Reply(m, tid);
    var s' := DoAnswer(s, m, r);
    var t := s.calls[m.call].caller;
    AnswerCall(s, m, r);
    ThreadIsOk(s, t);
    hide ThreadsOk, MessagesOk, CallOk, FrameOk, Nested, ContextOk, Handled, PendingOk;
    HandledThreads(s, s', m, Answered(r, OnWire), t);
    AnswerMessages(s, m, r);
    forall c: nat | c < |s'.calls| ensures CallOk(s', c) {
      if c != m.call { HandledCall(s, s', m, Answered(r, OnWire), t, c); }
    }
  }

  lemma AnswerMessages(s: State, m: Message, r: Message)
    requires InHand(s, m) && r.call == m.call
    ensures MessagesOk(DoAnswer(s, m, r))
  {
    hide ThreadsOk, CallOk, PendingOk, MessagesOk;
    NoneDropped(s);
    MessagesCarry(s, DoAnswer(s, m, r), m.call, s.calls[m.call].caller, 0);
  }

  lemma AnswerCall(s: State, m: Message, r: Message)
    requires InHand(s, m) && m.isRequest
    requires !r.isRequest && r.call == m.call && r.src == m.dest && r.dest == m.src && r.destThread == m.srcThread
    ensures
      var s' := DoAnswer(s, m, r);
      var t := s.calls[m.call].caller;
      s.calls[m.call].status.Sent? && Handled(s, s', m, Answered(r, OnWire), t)
      && Stack(s', t) == Stack(s, t) && CallOk(s', m.call)
      && (t in s.threads ==> s'.threads[t] == s.threads[t])
  {
    hide ThreadsOk, MessagesOk;
    var s' := DoAnswer(s, m, r);
    assert forall u :: Stack(s', u) == Stack(s, u) && Queue(s', u) == Queue(s, u);
    assert RequestOk(s, m.call, m);
  }

  // Starting to serve a request

  /** `t` may take request `m`: from the default queue while running, or from its own queue
      while waiting. */
  predicate MayServe(s: State, m: Message, t: Thread) {
    m.isRequest && t in s.threads && m.dest.proc == t.proc
    && if m.destThread == 0 then Running(s, t) else Addressee(m) == t
  }

  lemma ServeUntouched(s: State, m: Message, t: Thread)
    requires InHand(s, m) && MayServe(s, m, t)
    ensures Untouched(s, m, t)
  {
    hide ThreadsOk, MessagesOk;
    forall c: nat | Pending(s, c) && c != m.call
      ensures s.calls[c].caller != t
      ensures s.calls[c].status.msg.destThread != 0 ==> Addressee(s.calls[c].status.msg) != t
    {
      assert CallOk(s, c);
      if s.calls[c].status.msg.destThread != 0 && m.destThread != 0 && Addressee(s.calls[c].status.msg) == t {
        OneMessagePerThread(s, c, m.call);
      }
    }
  }

  lemma ServeContext(s: State, m: Message, t: Thread)
    requires t in s.threads && ContextOk(s.threads[t])
    ensures ContextOk(DoServe(s, t, m).threads[t])
  {
    var ts := s.threads[t];
    var o := OriginOf(m);
    var f := Serve(m.call, o, Save(ts.ctx, o));
    assert Find(ts.ctx.threads, o.src) == Scan(InProgress(ts.stack), o.src);
    InProgressPush(ts.stack, f);
    SavedPush(ts.stack, f);
    EnterAgrees(ts.ctx, o, InProgress(ts.stack));
  }

  lemma ServeKeeps(s: State, m: Message, t: Thread)
    requires InHand(s, m) && MayServe(s, m, t)
    ensures Inv(DoServe(s, t, m))
  {
    var s' := DoServe(s, t, m);
    var n := |Stack(s, t)|;
    var st := Served(t, n);
    ServeTop(s, m, t);
    ServeUntouched(s, m, t);
    assert t.tid != 0 && ContextOk(s.threads[t]);
    ServeContext(s, m, t);
    hide ThreadsOk, MessagesOk, CallOk, FrameOk, Nested, Handled, PendingOk, ContextOk, Untouched;
    HandledThreads(s, s', m, st, t);
    ServeMessages(s, m, t);
    forall c: nat | c < |s'.calls| ensures CallOk(s', c) {
      if c != m.call { HandledCall(s, s', m, st, t, c); }
    }
  }

  lemma ServeTop(s: State, m: Message, t: Thread)
    requires InHand(s, m) && MayServe(s, m, t)
    ensures
      var s' := DoServe(s, t, m);
      var k := Stack(s, t);
      s.calls[m.call].status.Sent? && Handled(s, s', m, Served(t, |k|), t) && |Stack(s', t)| == |k| + 1
      && FrameOk(s', t, |k|) && (k != [] ==> Nested(s', t, |k| - 1)) && CallOk(s', m.call)
  {
    hide ThreadsOk, MessagesOk;
    var s' := DoServe(s, t, m);
    assert RequestOk(s, m.call, m);
    assert Stack(s', t) == Stack(s, t) + [Serve(m.call, OriginOf(m), Save(s.threads[t].ctx, OriginOf(m)))];
    assert forall u | u != t :: Stack(s', u) == Stack(s, u);
  }

  lemma ServeMessages(s: State, m: Message, t: Thread)
    requires InHand(s, m) && MayServe(s, m, t)
    ensures MessagesOk(DoServe(s, t, m))
  {
    hide ThreadsOk, CallOk, PendingOk, MessagesOk;
    NoneDropped(s);
    MessagesCarry(s, DoServe(s, t, m), m.call, t, 0);
  }

  // Queueing a message

  /** The addressee exists, and its queue is empty. */
  lemma AddresseeIdle(s: State, m: Message)
    requires InHand(s, m) && m.destThread != 0
    ensures Addressee(m) in s.threads && Queue(s, Addressee(m)) == []
  {
    hide ThreadsOk;
    var t := Addressee(m);
    if Queue(s, t) != [] {
      var x := Queue(s, t)[0];
      assert x in Queue(s, t);
      assert MessageIs(s, x, InThreadQueue);
      assert x.call != m.call;
      assert CallOk(s, x.call);
      OneMessagePerThread(s, m.call, x.call);
    }
  }

  lemma ToThreadQueueKeeps(s: State, m: Message)
    requires InHand(s, m) && m.destThread != 0 && Addressee(m) in s.threads
    ensures Inv(ToThreadQueue(s, m))
  {
    AddresseeIdle(s, m);
    var s' := ToThreadQueue(s, m);
    var t := Addressee(m);
    var st := QueuedStatus(m, InThreadQueue);
    hide ThreadsOk, MessagesOk, CallOk, FrameOk, Nested, PendingOk, ContextOk;
    ToThreadQueueShape(s, m);
    ThreadIsOk(s, t);
    PutCall(s, m, s', InThreadQueue);
    hide Handled;
    HandledThreads(s, s', m, st, t);
    ToThreadQueueMessages(s, m);
    forall c: nat | c < |s'.calls| ensures CallOk(s', c) {
      if c != m.call { HandledCall(s, s', m, st, t, c); }
    }
  }

  lemma ToThreadQueueShape(s: State, m: Message)
    requires Pending(s, m.call) && Addressee(m) in s.threads && Queue(s, Addressee(m)) == []
    ensures
      var s' := ToThreadQueue(s, m);
      var t := Addressee(m);
      Handled(s, s', m, QueuedStatus(m, InThreadQueue), t) && (forall u :: Stack(s', u) == Stack(s, u))
      && s'.threads[t].stack == s.threads[t].stack && s'.threads[t].ctx == s.threads[t].ctx
      && Holds(s', m, InThreadQueue)
  {
  }

  lemma PutCall(s: State, m: Message, s': State, at: Place)
    requires InHand(s, m) && s'.calls == SetStatus(s.calls, m.call, QueuedStatus(m, at))
    requires (forall u :: Stack(s', u) == Stack(s, u)) && Holds(s', m, at) && (at == InDefaultQueue ==> m.isRequest)
    ensures CallOk(s', m.call)
  {
    hide ThreadsOk, MessagesOk;
    if m.isRequest && m.destThread != 0 {
      assert Top(s, Addressee(m)).call != m.call;
    }
  }

  lemma ToThreadQueueMessages(s: State, m: Message)
    requires InHand(s, m) && m.destThread != 0 && Addressee(m) in s.threads && Queue(s, Addressee(m)) == []
    ensures MessagesOk(ToThreadQueue(s, m))
  {
    hide ThreadsOk, CallOk, MessagesOk;
    NoneDropped(s);
    var s' := ToThreadQueue(s, m);
    assert Queue(s', Addressee(m)) == [m] && MessageIs(s', m, InThreadQueue);
    MessagesCarry(s, s', m.call, Addressee(m), 0);
  }

  lemma ToDefaultQueueKeeps(s: State, m: Message)
    requires InHand(s, m) && m.isRequest && m.destThread == 0
    ensures Inv(ToDefaultQueue(s, m))
  {
    hide ThreadsOk, MessagesOk, CallOk, FrameOk, Nested, PendingOk, ContextOk;
    var s' := ToDefaultQueue(s, m);
    var t := s.calls[m.call].caller;
    var st := Sent(m, InDefaultQueue);
    ToDefaultQueueShape(s, m);
    ThreadIsOk(s, t);
    PutCall(s, m, s', InDefaultQueue);
    hide Handled;
    HandledThreads(s, s', m, st, t);
    ToDefaultQueueMessages(s, m);
    forall c: nat | c < |s'.calls| ensures CallOk(s', c) {
      if c != m.call { HandledCall(s, s', m, st, t, c); }
    }
  }

  lemma ToDefaultQueueShape(s: State, m: Message)
    requires Pending(s, m.call) && m.destThread == 0
    ensures
      var s' := ToDefaultQueue(s, m);
      Handled(s, s', m, Sent(m, InDefaultQueue), s.calls[m.call].caller) && Holds(s', m, InDefaultQueue)
      && s'.threads == s.threads && (forall u :: Stack(s', u) == Stack(s, u))
  {
    assert forall u :: Queue(ToDefaultQueue(s, m), u) == Queue(s, u);
  }

  lemma ToDefaultQueueMessages(s: State, m: Message)
    requires InHand(s, m) && m.isRequest && m.destThread == 0
    ensures MessagesOk(ToDefaultQueue(s, m))
  {
    hide ThreadsOk, CallOk;
    NoneDropped(s);
    var s' := ToDefaultQueue(s, m);
    var d := m.dest.proc;
    var q := DefaultQueue(s, d);
    assert DefaultQueue(s', d) == q + [m] && MessageIs(s', m, InDefaultQueue);
    assert DefaultOk(s', d) by {
      assert DefaultOk(s, d);
      hide MessageIs, MessagesOk;
      DefaultCarry(s, s', m.call, d);
      assert forall i | 0 <= i < |q| :: q[i] in q;
    }
    hide MessagesOk, DefaultOk;
    MessagesCarry(s, s', m.call, s.calls[m.call].caller, d);
  }

  // Leaving a frame

  /** The top frame of `t`, which belongs to call `c`, is gone and `c` has status `st`. */
  ghost predicate Popped(s: State, s': State, t: Thread, c: nat, st: Status) {
    && t in s.threads && Stack(s, t) != [] && c == Top(s, t).call && c < |s.calls|
    && s'.calls == s.calls[c := s.calls[c].(status := st)]
    && s'.threads.Keys == s.threads.Keys && s.wire <= s'.wire
    && Stack(s', t) == Stack(s, t)[..|Stack(s, t)| - 1]
    && (forall u | u in s.threads && u != t :: s'.threads[u] == s.threads[u])
    && (forall u :: Queue(s', u) == Queue(s, u))
    && s'.defaultQueues == s.defaultQueues && s'.dropped == s.dropped
  }

  /** Nothing else hangs on the top frame of `t`: no message depends on `t` or on `c`, and
      no thread has a callback above its wait for `c`. */
  ghost predicate Loose(s: State, t: Thread, c: nat) {
    && (forall d: nat :: Pending(s, d) && d != c ==>
          s.calls[d].caller != t
          && (s.calls[d].status.msg.isRequest && s.calls[d].status.msg.destThread != 0 ==>
                var u := Addressee(s.calls[d].status.msg);
                u != t && (Stack(s, u) != [] ==> Top(s, u).call != c)))
    && (forall u <- s.threads, i | 0 <= i < |Stack(s, u)| - 1 :: Stack(s, u)[i].Wait? ==> Stack(s, u)[i].call != c)
  }

  lemma PoppedCall(s: State, s': State, t: Thread, c: nat, st: Status, d: nat)
    requires Popped(s, s', t, c, st) && Loose(s, t, c) && d < |s.calls| && d != c && CallOk(s, d)
    ensures CallOk(s', d)
  {
    assert forall u | u != t :: Stack(s', u) == Stack(s, u);
    assert forall p :: DefaultQueue(s', p) == DefaultQueue(s, p);
    if Pending(s, d) {
      assert PendingKept(s, s', d);
      assert Holds(s', s.calls[d].status.msg, s.calls[d].status.at);
    }
    CallKept(s, s', d);
  }

  lemma PoppedFrames(s: State, s': State, t: Thread, c: nat, st: Status, u: Thread, i: nat)
    requires ThreadsOk(s) && Popped(s, s', t, c, st) && Loose(s, t, c)
    requires if Top(s, t).Wait? then s.calls[c].status.Answered? else st.Answered?
    requires u in s.threads && i < |Stack(s', u)|
    ensures FrameOk(s', u, i)
    ensures i + 1 < |Stack(s', u)| ==> Nested(s', u, i)
  {
    assert FrameOk(s, u, i) && FrameOk(s, t, |Stack(s, t)| - 1);
    FrameKept(s, s', u, i);
    if i + 1 < |Stack(s', u)| {
      assert Nested(s, u, i);
      NestedKept(s, s', u, i);
    }
  }

  lemma PoppedThreads(s: State, s': State, t: Thread, c: nat, st: Status)
    requires ThreadsOk(s) && Popped(s, s', t, c, st) && Loose(s, t, c)
    requires if Top(s, t).Wait? then s.calls[c].status.Answered? else st.Answered?
    requires ContextOk(s'.threads[t])
    ensures ThreadsOk(s')
  {
    hide FrameOk, Nested, ContextOk, Loose;
    forall u | u in s'.threads ensures u.tid != 0 && ContextOk(s'.threads[u]) {
      ThreadIsOk(s, u);
    }
    hide Popped, ThreadsOk;
    assert s'.threads.Keys == s.threads.Keys by { PoppedKeys(s, s', t, c, st); }
    forall u, i: nat | u in s'.threads && i < |Stack(s', u)| ensures FrameOk(s', u, i) {
      PoppedFrames(s, s', t, c, st, u, i);
    }
    forall u, i: nat | u in s'.threads && i < |Stack(s', u)| - 1 ensures Nested(s', u, i) {
      PoppedFrames(s, s', t, c, st, u, i);
    }
  }

  lemma PoppedKeys(s: State, s': State, t: Thread, c: nat, st: Status)
    requires Popped(s, s', t, c, st)
    ensures s'.threads.Keys == s.threads.Keys && |s'.calls| == |s.calls|
  {
  }

  /** The response a thread takes from its queue answers its innermost request. */
  lemma ResponseIsInnermost(s: State, m: Message, t: Thread)
    requires InHand(s, m) && !m.isRequest && Addressee(m) == t
    ensures Waiting(s, t) && Top(s, t) == Wait(m.call, m.src) && s.calls[m.call].status.Answered?
  {
    hide ThreadsOk, MessagesOk, CallOk;
  }

  lemma ReturnKeeps(s: State, m: Message, t: Thread)
    requires InHand(s, m) && !m.isRequest && Addressee(m) == t && t in s.threads && Stack(s, t) != []
    ensures Inv(DoReturn(s, t))
  {
    var s' := DoReturn(s, t);
    ReturnLoose(s, m, t);
    ResponseIsInnermost(s, m, t);
    ReturnShape(s, m, t);
    ReturnMessages(s, m, t);
    ThreadIsOk(s, t);
    PopContext(s.threads[t]);
    hide ThreadsOk, MessagesOk, CallOk, FrameOk, Nested, ContextOk, Loose, PendingOk, Popped;
    PoppedThreads(s, s', t, m.call, Returned);
    forall c: nat | c < |s'.calls| ensures CallOk(s', c) {
      if c != m.call { PoppedCall(s, s', t, m.call, Returned, c); }
    }
  }

  lemma ReturnShape(s: State, m: Message, t: Thread)
    requires Waiting(s, t) && Top(s, t) == Wait(m.call, m.src)
    requires m.call < |s.calls| && s.calls[m.call].status.Answered?
    ensures
      var s' := DoReturn(s, t);
      Popped(s, s', t, m.call, Returned) && |s'.calls| == |s.calls| && CallOk(s', m.call)
      && s'.threads[t] == s.threads[t].(stack := Stack(s, t)[..|Stack(s, t)| - 1])
  {
  }

  lemma ReturnLoose(s: State, m: Message, t: Thread)
    requires InHand(s, m) && !m.isRequest && Addressee(m) == t && t in s.threads && Stack(s, t) != []
    ensures Loose(s, t, m.call)
  {
    hide MessagesOk;
    ResponseIsInnermost(s, m, t);
    assert ResponseOk(s, m.call, m);
    forall u, i: nat | u in s.threads && i < |Stack(s, u)| - 1 && Stack(s, u)[i].Wait?
      ensures Stack(s, u)[i].call != m.call
    {
      assert FrameOk(s, u, i);
    }
    hide ThreadsOk;
    forall d: nat | Pending(s, d) && d != m.call
      ensures s.calls[d].caller != t
      ensures s.calls[d].status.msg.isRequest && s.calls[d].status.msg.destThread != 0 ==>
                var u := Addressee(s.calls[d].status.msg);
                u != t && (Stack(s, u) != [] ==> Top(s, u).call != m.call)
    {
      assert CallOk(s, d);
    }
  }

  lemma ReturnMessages(s: State, m: Message, t: Thread)
    requires InHand(s, m) && !m.isRequest && Addressee(m) == t && t in s.threads && Stack(s, t) != []
    ensures MessagesOk(DoReturn(s, t))
  {
    ResponseIsInnermost(s, m, t);
    hide ThreadsOk, CallOk, PendingOk, MessagesOk;
    NoneDropped(s);
    MessagesCarry(s, DoReturn(s, t), m.call, t, 0);
  }

  lemma PopContext(ts: ThreadState)
    requires ContextOk(ts) && ts.stack != []
    ensures
      var n := |ts.stack| - 1;
      ts.stack[n].Wait? ==> ContextOk(ts.(stack := ts.stack[..n]))
  {
    PopSaved(ts.stack);
    var n := |ts.stack| - 1;
    if ts.stack[n].Wait? { assert InProgress(ts.stack) == InProgress(ts.stack[..n]); }
  }

  lemma PopSaved(stack: seq<Frame>)
    requires SavedOk(stack) && stack != []
    ensures SavedOk(stack[..|stack| - 1])
  {
    var k := stack[..|stack| - 1];
    assert forall i | 0 <= i < |k| :: k[..i] == stack[..i];
  }

  lemma LeaveAgrees(ctx: Context, o: Origin, saved: Saved, below: seq<Origin>)
    requires Agrees(ctx.threads, below + [o]) && saved.oldThread == Scan(below, o.src)
    ensures Agrees(Leave(ctx, o, saved).threads, below)
  {
    var left := Leave(ctx, o, saved).threads;
    assert (below + [o])[..|below|] == below;
    assert Find(ctx.threads, o.src) == Scan(below + [o], o.src) == Some(o.thread);
    forall c ensures Find(left, c) == Scan(below, c) {
      assert Find(ctx.threads, c) == Scan(below + [o], c);
    }
  }

  lemma FinishContext(ts: ThreadState)
    requires ContextOk(ts) && ts.stack != [] && ts.stack[|ts.stack| - 1].Serve?
    ensures
      var n := |ts.stack| - 1;
      ContextOk(ts.(ctx := Leave(ts.ctx, ts.stack[n].origin, ts.stack[n].saved), stack := ts.stack[..n]))
  {
    var n := |ts.stack| - 1;
    PopSaved(ts.stack);
    assert InProgress(ts.stack) == InProgress(ts.stack[..n]) + [ts.stack[n].origin];
    LeaveAgrees(ts.ctx, ts.stack[n].origin, ts.stack[n].saved, InProgress(ts.stack[..n]));
  }

  /** The caller of a call being finished has nothing above its wait. */
  lemma FinishCallerTop(s: State, t: Thread)
    requires Inv(s) && Running(s, t) && Stack(s, t) != []
    ensures
      var c := Top(s, t).call;
      c < |s.calls| && IsServedAt(s, c, t, |Stack(s, t)| - 1) && IsTop(s, c)
      && s.calls[c].caller in s.threads && Waiting(s, s.calls[c].caller)
      && Thread(Top(s, t).origin.src.proc, Top(s, t).origin.thread) == s.calls[c].caller
      && Top(s, s.calls[c].caller) == Wait(c, Channel(t.proc, Top(s, t).origin.cmpt))
  {
    var n := |Stack(s, t)| - 1;
    assert FrameOk(s, t, n);
    var c := Top(s, t).call;
    assert CallOk(s, c);
    var u := s.calls[c].caller;
    if s.calls[c].pos + 1 < |Stack(s, u)| { CallbackAbove(s, u, s.calls[c].pos); }
  }

  lemma FinishLoose(s: State, t: Thread)
    requires Inv(s) && Running(s, t) && Stack(s, t) != []
    ensures Loose(s, t, Top(s, t).call)
  {
    FinishCallerTop(s, t);
    hide MessagesOk;
    var c := Top(s, t).call;
    forall u, i: nat | u in s.threads && i < |Stack(s, u)| - 1 && Stack(s, u)[i].Wait?
      ensures Stack(s, u)[i].call != c
    {
      assert FrameOk(s, u, i);
    }
    hide ThreadsOk;
    forall d: nat | Pending(s, d) && d != c
      ensures s.calls[d].caller != t
      ensures s.calls[d].status.msg.isRequest && s.calls[d].status.msg.destThread != 0 ==>
                var u := Addressee(s.calls[d].status.msg);
                u != t && (Stack(s, u) != [] ==> Top(s, u).call != c)
    {
      assert CallOk(s, d);
    }
  }

  lemma FinishShape(s: State, t: Thread)
    requires t in s.threads && t.tid != 0 && Running(s, t) && Stack(s, t) != [] && Top(s, t).call < |s.calls|
    requires
      var c := Top(s, t).call;
      IsTop(s, c) && Waiting(s, s.calls[c].caller) && s.calls[c].caller != t && s.calls[c].caller.tid != 0
      && Thread(Top(s, t).origin.src.proc, Top(s, t).origin.thread) == s.calls[c].caller
      && Top(s, s.calls[c].caller) == Wait(c, Channel(t.proc, Top(s, t).origin.cmpt))
    ensures
      var s' := DoFinish(s, t);
      var c := Top(s, t).call;
      var r := Message(c, false, false, Channel(t.proc, Top(s, t).origin.cmpt), t.tid, Top(s, t).origin.src, Top(s, t).origin.thread);
      Popped(s, s', t, c, Answered(r, OnWire)) && |s'.calls| == |s.calls| && CallOk(s', c) && s'.wire == s.wire + {r}
  {
    var s' := DoFinish(s, t);
    assert forall u | u != t :: Stack(s', u) == Stack(s, u);
  }

  lemma FinishMessages(s: State, t: Thread)
    requires MessagesOk(s) && Running(s, t) && Stack(s, t) != []
    requires Top(s, t).call < |s.calls| && s.calls[Top(s, t).call].status.Served?
    ensures MessagesOk(DoFinish(s, t))
  {
    hide MessagesOk;
    NoneDropped(s);
    MessagesCarry(s, DoFinish(s, t), Top(s, t).call, t, 0);
  }

  lemma FinishKeeps(s: State, t: Thread)
    requires Inv(s) && Running(s, t) && Stack(s, t) != []
    ensures Inv(DoFinish(s, t))
  {
    var s' := DoFinish(s, t);
    var c := Top(s, t).call;
    FinishCallerTop(s, t);
    ThreadIsOk(s, t);
    ThreadIsOk(s, s.calls[c].caller);
    FinishShape(s, t);
    FinishLoose(s, t);
    FinishMessages(s, t);
    FinishContext(s.threads[t]);
    hide ThreadsOk, MessagesOk, CallOk, FrameOk, Nested, ContextOk, Loose, Popped;
    var st := s'.calls[c].status;
    PoppedThreads(s, s', t, c, st);
    forall d: nat | d < |s'.calls| ensures CallOk(s', d) {
      if d != c { PoppedCall(s, s', t, c, st, d); }
    }
  }

  // ---- The theorems ----

  lemma TakeKeeps(s: State, t: Thread, m: Message, at: Place, found: bool, s1: State)
    requires Inv(s) && Taken(s, s1, m) && MessageIs(s, m, at) && MayServe(s1, m, t)
    ensures Inv(DoProcess(s1, t, m, found))
  {
    hide Inv, DoServe, DoAnswer, Taken;
    TakenInHand(s, s1, m, at);
    if found { ServeKeeps(s1, m, t); } else { AnswerKeeps(s1, m, t.tid); }
  }

  lemma TakeOwnKeeps(s: State, t: Thread, found: bool)
    requires Inv(s) && Enabled(s, TakeOwn(t, found))
    ensures Inv(Next(s, TakeOwn(t, found)))
  {
    var ts := s.threads[t];
    var m := ts.queue[0];
    var s1 := s.(threads := s.threads[t := ts.(queue := ts.queue[1..])]);
    TakeOwnTaken(s, t);
    hide Taken;
    if m.isRequest {
      TakeKeeps(s, t, m, InThreadQueue, found, s1);
    } else {
      TakenInHand(s, s1, m, InThreadQueue);
      ReturnKeeps(s1, m, t);
    }
  }

  lemma TakeOwnTaken(s: State, t: Thread)
    requires MessagesOk(s) && Waiting(s, t) && Queue(s, t) != []
    ensures
      var ts := s.threads[t];
      var m := ts.queue[0];
      Taken(s, s.(threads := s.threads[t := ts.(queue := ts.queue[1..])]), m)
      && MessageIs(s, m, InThreadQueue) && Addressee(m) == t
  {
    QueuedOnce(s, t);
    hide MessagesOk, MessageIs, DefaultOk, QueueOk;
    var ts := s.threads[t];
    var s1 := s.(threads := s.threads[t := ts.(queue := ts.queue[1..])]);
    assert forall u | u != t :: Queue(s1, u) == Queue(s, u);
    assert forall p :: DefaultQueue(s1, p) == DefaultQueue(s, p);
  }

  lemma QueuedOnce(s: State, t: Thread)
    requires MessagesOk(s) && t in s.threads && Queue(s, t) != []
    ensures
      var m := Queue(s, t)[0];
      Queue(s, t) == [m] && MessageIs(s, m, InThreadQueue) && Addressee(m) == t && m !in s.wire
      && (forall u | u != t :: Queue(s, u) != [m]) && (forall p :: m !in DefaultQueue(s, p))
  {
    var m := Queue(s, t)[0];
    assert QueueOk(s, t);
    forall u | u != t ensures Queue(s, u) != [m] {
      assert u in s.threads ==> QueueOk(s, u);
    }
    forall p ensures m !in DefaultQueue(s, p) {
      NotInDefaultQueue(s, m, InThreadQueue, p);
    }
  }

  lemma NotInDefaultQueue(s: State, m: Message, at: Place, p: nat)
    requires MessagesOk(s) && MessageIs(s, m, at) && at != InDefaultQueue
    ensures m !in DefaultQueue(s, p)
  {
    assert DefaultOk(s, p);
    forall i | 0 <= i < |DefaultQueue(s, p)| ensures DefaultQueue(s, p)[i] != m {
      assert MessageIs(s, DefaultQueue(s, p)[i], InDefaultQueue);
    }
  }

  lemma TakeDefaultKeeps(s: State, t: Thread, found: bool)
    requires Inv(s) && Enabled(s, TakeDefault(t, found))
    ensures Inv(Next(s, TakeDefault(t, found)))
  {
    var q := DefaultQueue(s, t.proc);
    TakeDefaultTaken(s, t.proc);
    assert CallOk(s, q[0].call);
    hide Taken;
    TakeKeeps(s, t, q[0], InDefaultQueue, found, s.(defaultQueues := s.defaultQueues[t.proc := q[1..]]));
  }

  lemma TakeDefaultTaken(s: State, p: nat)
    requires MessagesOk(s) && DefaultQueue(s, p) != []
    ensures
      var q := DefaultQueue(s, p);
      Taken(s, s.(defaultQueues := s.defaultQueues[p := q[1..]]), q[0]) && MessageIs(s, q[0], InDefaultQueue)
      && q[0].dest.proc == p
  {
    var q := DefaultQueue(s, p);
    var m := q[0];
    var s1 := s.(defaultQueues := s.defaultQueues[p := q[1..]]);
    assert forall p' | p' != p :: DefaultQueue(s1, p') == DefaultQueue(s, p');
    assert DefaultOk(s, p) && MessageIs(s, m, InDefaultQueue);
    forall p' ensures m !in DefaultQueue(s1, p') {
      assert DefaultOk(s, p');
      forall i | 0 <= i < |DefaultQueue(s1, p')| ensures DefaultQueue(s1, p')[i] != m {
        assert p' == p ==> DefaultQueue(s1, p)[i] == q[i + 1];
        assert p' != p ==> DefaultQueue(s1, p')[i] == DefaultQueue(s, p')[i];
      }
    }
  }

  lemma DeliverKeeps(s: State, m: Message)
    requires Inv(s) && m in s.wire
    ensures Inv(DoDeliver(s, m))
  {
    hide Taken, Inv, InHand, ToThreadQueue, ToDefaultQueue, DoAnswer;
    var s1 := s.(wire := s.wire - {m});
    DeliverInHand(s, m);
    if m.isRequest && m.system {
      AnswerKeeps(s1, m, 0);
    } else if m.destThread != 0 {
      AddresseeIdle(s1, m);
      ToThreadQueueKeeps(s1, m);
    } else {
      Unaddressed(s1, m);
      ToDefaultQueueKeeps(s1, m);
    }
  }

  lemma Unaddressed(s: State, m: Message)
    requires InHand(s, m) && m.destThread == 0
    ensures m.isRequest
  {
    if !m.isRequest {
      assert ResponseOk(s, m.call, m);
      ThreadIsOk(s, Addressee(m));
    }
  }

  lemma DeliverInHand(s: State, m: Message)
    requires Inv(s) && m in s.wire
    ensures InHand(s.(wire := s.wire - {m}), m)
  {
    DeliverTaken(s, m);
    hide Taken, InHand;
    TakenInHand(s, s.(wire := s.wire - {m}), m, OnWire);
  }

  lemma DeliverTaken(s: State, m: Message)
    requires MessagesOk(s) && m in s.wire
    ensures Taken(s, s.(wire := s.wire - {m}), m) && MessageIs(s, m, OnWire)
  {
    var s1 := s.(wire := s.wire - {m});
    forall p ensures m !in DefaultQueue(s, p) && DefaultQueue(s1, p) == DefaultQueue(s, p) {
      NotInDefaultQueue(s, m, OnWire, p);
    }
    forall u ensures Queue(s1, u) == Queue(s, u) && Queue(s, u) != [m] {
      assert Queue(s, u) != [] ==> MessageIs(s, Queue(s, u)[0], InThreadQueue);
    }
  }

  lemma NextKeeps(s: State, e: Event)
    requires Inv(s)
    ensures Inv(Next(s, e))
  {
    if Enabled(s, e) {
      match e {
        case NewThread(t) => KeepsNewThread(s, t);
        case SwitchCompartment(t, cmpt) => KeepsSwitch(s, t, cmpt);
        case SendRequest(t, dest, system) => KeepsSend(s, t, dest, system);
        case Deliver(m) => DeliverKeeps(s, m);
        case TakeOwn(t, found) => TakeOwnKeeps(s, t, found);
        case TakeDefault(t, found) => TakeDefaultKeeps(s, t, found);
        case Finish(t) => FinishKeeps(s, t);
      }
    }
  }

  lemma {:induction false} RunKeeps(events: seq<Event>)
    ensures Inv(Run(events))
  {
    hide Next, Inv;
    if events == [] {
      InitInv();
    } else {
      RunKeeps(events[..|events| - 1]);
      NextKeeps(Run(events[..|events| - 1]), events[|events| - 1]);
    }
  }

  lemma InitInv()
    ensures Inv(Init)
  {
  }

  /** After any run, a response at the head of a waiting thread's queue, which is the one
      `wait_for_response` will return, is the answer to that thread's innermost outstanding
      request and comes from the channel the request went to; it is the only message
      underway to that thread. */
  lemma ResponseAnswersInnermost(events: seq<Event>, t: Thread)
    ensures
      var s := Run(events);
      |Queue(s, t)| <= 1
      && (Queue(s, t) != [] ==> Waiting(s, t))
      && (Queue(s, t) != [] && !Queue(s, t)[0].isRequest ==>
            Top(s, t) == Wait(Queue(s, t)[0].call, Queue(s, t)[0].src))
  {
    RunKeeps(events);
    hide Run;
    var s := Run(events);
    if Queue(s, t) != [] {
      var m := Queue(s, t)[0];
      assert MessageIs(s, m, InThreadQueue);
      assert CallOk(s, m.call);
    }
  }

  /** The places where a call can be found: a message of it on the wire or in a queue, or a
      frame that serves it. */
  datatype Spot = Wire(m: Message) | Queued(t: Thread, i: nat) | InDefault(p: nat, i: nat) | Serving(t: Thread, i: nat)

  predicate Found(s: State, c: nat, at: Spot) {
    match at
    case Wire(m) => m in s.wire && m.call == c
    case Queued(t, i) => i < |Queue(s, t)| && Queue(s, t)[i].call == c
    case InDefault(p, i) => i < |DefaultQueue(s, p)| && DefaultQueue(s, p)[i].call == c
    case Serving(t, i) => i < |Stack(s, t)| && Stack(s, t)[i].Serve? && Stack(s, t)[i].call == c
  }

  /** The call is there and nowhere else. */
  ghost predicate OnlyAt(s: State, c: nat, at: Spot) {
    forall other :: Found(s, c, other) <==> other == at
  }

  predicate WaitsAt(s: State, c: nat, t: Thread, i: nat) {
    i < |Stack(s, t)| && Stack(s, t)[i].Wait? && Stack(s, t)[i].call == c
  }

  /** Where the message of a pending call, or the frame of one being served, must be. */
  ghost predicate IsSpot(s: State, c: nat, at: Spot)
    requires c < |s.calls|
  {
    match s.calls[c].status
    case Sent(m, OnWire) => at == Wire(m)
    case Sent(m, InThreadQueue) => at == Queued(Addressee(m), 0)
    case Sent(m, InDefaultQueue) => at.InDefault? && at.p == m.dest.proc
    case Answered(m, OnWire) => at == Wire(m)
    case Answered(m, InThreadQueue) => at == Queued(Addressee(m), 0)
    case Answered(m, InDefaultQueue) => false
    case Served(t, i) => at == Serving(t, i)
    case Returned => false
  }

  /** Wherever a call is found, its record says so. */
  lemma FoundIs(s: State, c: nat, at: Spot)
    requires Inv(s) && c < |s.calls| && Found(s, c, at)
    ensures IsSpot(s, c, at)
  {
    hide ContextOk, Nested, CallOk;
    match at
    case Wire(m) => assert MessageIs(s, m, OnWire);
    case Queued(t, i) => assert QueueOk(s, t);
    case InDefault(p, i) =>
      assert DefaultOk(s, p);
      assert MessageIs(s, DefaultQueue(s, p)[i], InDefaultQueue);
      NotAnswered(s, c, DefaultQueue(s, p)[i]);
    case Serving(t, i) => assert FrameOk(s, t, i);
  }

  lemma NotAnswered(s: State, c: nat, m: Message)
    requires Inv(s) && c < |s.calls|
    ensures s.calls[c].status != Answered(m, InDefaultQueue)
  {
    assert CallOk(s, c);
  }

  /** Two messages of a call in the default queue of a process would be the same one twice. */
  lemma OneInDefault(s: State, c: nat, a: Spot, b: Spot)
    requires Inv(s) && c < |s.calls| && Found(s, c, a) && Found(s, c, b) && a.InDefault? && b.InDefault? && a.p == b.p
    ensures a == b
  {
    hide ContextOk, Nested, CallOk;
    assert DefaultOk(s, a.p);
    assert MessageIs(s, DefaultQueue(s, a.p)[a.i], InDefaultQueue);
    assert MessageIs(s, DefaultQueue(s, a.p)[b.i], InDefaultQueue);
    NotAnswered(s, c, DefaultQueue(s, a.p)[a.i]);
    NotAnswered(s, c, DefaultQueue(s, a.p)[b.i]);
  }

  /** The place that the record names has the call. */
  lemma SpotHolds(s: State, c: nat) returns (at: Spot)
    requires Inv(s) && c < |s.calls| && !s.calls[c].status.Returned?
    ensures Found(s, c, at)
  {
    hide ThreadsOk, MessagesOk;
    assert CallOk(s, c);
    match s.calls[c].status
    case Served(t, i) => at := Serving(t, i);
    case Sent(m, p) => at := SpotOfMessage(s, m, p);
    case Answered(m, p) => at := SpotOfMessage(s, m, p);
  }

  lemma SpotOfMessage(s: State, m: Message, p: Place) returns (at: Spot)
    requires Holds(s, m, p)
    ensures Found(s, m.call, at)
  {
    match p
    case OnWire => at := Wire(m);
    case InThreadQueue => at := Queued(Addressee(m), 0);
    case InDefaultQueue =>
      var q := DefaultQueue(s, m.dest.proc);
      var i :| 0 <= i < |q| && q[i] == m;
      at := InDefault(m.dest.proc, i);
  }

  /** After any run no message was dropped. A call that has not returned is in exactly one
      place: one message of it on the wire or in one queue, or one frame that serves it; and its
      caller waits for it in exactly one frame. A call that has returned is nowhere. */
  lemma NothingLost(events: seq<Event>, c: nat)
    requires c < |Run(events).calls|
    ensures
      var s := Run(events);
      s.dropped == {}
      && (if s.calls[c].status.Returned? then
            (forall at :: !Found(s, c, at)) && forall t, i :: !WaitsAt(s, c, t, i)
          else
            (exists at :: OnlyAt(s, c, at) && IsSpot(s, c, at))
            && forall t, i: nat :: WaitsAt(s, c, t, i) <==> t == s.calls[c].caller && i == s.calls[c].pos)
  {
    RunKeeps(events);
    hide Run, Inv, Found, WaitsAt, OnlyAt, IsSpot;
    var s := Run(events);
    WaitsOnce(s, c);
    FoundOnce(s, c);
    NoneDroppedIn(s);
  }

  lemma NoneDroppedIn(s: State)
    requires Inv(s)
    ensures s.dropped == {}
  {
  }

  lemma WaitsOnce(s: State, c: nat)
    requires Inv(s) && c < |s.calls|
    ensures s.calls[c].status.Returned? ==> forall t, i :: !WaitsAt(s, c, t, i)
    ensures !s.calls[c].status.Returned? ==>
              forall t, i: nat :: WaitsAt(s, c, t, i) <==> t == s.calls[c].caller && i == s.calls[c].pos
  {
    hide ContextOk, Nested, CallOk, MessagesOk;
    forall t, i | WaitsAt(s, c, t, i) ensures t == s.calls[c].caller && i == s.calls[c].pos && !s.calls[c].status.Returned? {
      assert FrameOk(s, t, i);
    }
    if !s.calls[c].status.Returned? {
      CallerIsWaiting(s, c);
    }
  }

  lemma FoundOnce(s: State, c: nat)
    requires Inv(s) && c < |s.calls|
    ensures s.calls[c].status.Returned? ==> forall at :: !Found(s, c, at)
    ensures !s.calls[c].status.Returned? ==> exists at :: OnlyAt(s, c, at) && IsSpot(s, c, at)
  {
    hide Inv, Found;
    if s.calls[c].status.Returned? {
      forall at ensures !Found(s, c, at) {
        if Found(s, c, at) {
          FoundIs(s, c, at);
        }
      }
    } else {
      var at := SpotHolds(s, c);
      FoundIs(s, c, at);
      forall other | Found(s, c, other) ensures other == at {
        FoundIs(s, c, other);
        if at.InDefault? {
          OneInDefault(s, c, at, other);
        }
      }
      assert OnlyAt(s, c, at);
    }
  }

  lemma CallerIsWaiting(s: State, c: nat)
    requires Inv(s) && c < |s.calls| && !s.calls[c].status.Returned?
    ensures WaitsAt(s, c, s.calls[c].caller, s.calls[c].pos)
  {
    hide ThreadsOk, MessagesOk;
    assert CallOk(s, c);
  }

  /** After any run the channel table of every thread is what a scan of its stack gives. */
  lemma TablesAgree(events: seq<Event>, t: Thread)
    requires t in Run(events).threads
    ensures Agrees(Run(events).threads[t].ctx.threads, InProgress(Stack(Run(events), t)))
  {
    RunKeeps(events);
    hide Run;
    assert ContextOk(Run(events).threads[t]);
  }

  /** After any run, a callback that a running thread addresses through its table reaches the
      thread the scan of its stack names, which waits for the running one and has nothing
      queued. */
  lemma CallbackReachesCaller(events: seq<Event>, t: Thread, dest: Channel)
    requires Running(Run(events), t) && Target(Run(events).threads[t].ctx, dest) != 0
    ensures
      var s := Run(events);
      var u := Thread(dest.proc, Target(s.threads[t].ctx, dest));
      Scan(InProgress(Stack(s, t)), dest) == Some(u.tid)
      && WaitsFor(s, u, t) && Queue(s, u) == []
  {
    RunKeeps(events);
    hide Run;
    var s := Run(events);
    SendDirect(s, t, dest);
    assert ContextOk(s.threads[t]);
    assert Find(s.threads[t].ctx.threads, dest) == Scan(InProgress(Stack(s, t)), dest);
    QueueOfServed(s, t, Thread(dest.proc, Target(s.threads[t].ctx, dest)));
  }

  /** Nothing is queued for a thread whose innermost request a running thread is serving. */
  lemma QueueOfServed(s: State, t: Thread, u: Thread)
    requires Inv(s) && Running(s, t) && WaitsFor(s, u, t)
    ensures Queue(s, u) == []
  {
    hide Inv;
    if Queue(s, u) != [] {
      QueueHead(s, u);
    }
  }

  lemma QueueHead(s: State, u: Thread)
    requires Inv(s) && Queue(s, u) != []
    ensures
      var m := Queue(s, u)[0];
      Pending(s, m.call) && s.calls[m.call].status.msg == m && PendingOk(s, m.call) && Addressee(m) == u && u.tid != 0
  {
    hide FrameOk, Nested, ContextOk;
    var m := Queue(s, u)[0];
    assert QueueOk(s, u) && CallOk(s, m.call);
  }
}
