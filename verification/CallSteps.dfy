/** What each step of the nested-call protocol does after any run, and that the steps lead
    somewhere: a call goes forward with each of them, and only a process without a free
    thread can leave one unfinished. */
module CallSteps {
  import opened CallProtocol
  import opened ThreadContexts

  lemma RunOne(events: seq<Event>, e: Event)
    ensures Run(events + [e]) == Next(Run(events), e)
  {
    assert (events + [e])[..|events|] == events;
  }

  // ---- What the steps do ----

  /** A running thread's request carries its own channel and thread id, and is addressed to the
      thread that the scan of its stack names, or to none. */
  lemma SendPutsRequest(events: seq<Event>, t: Thread, dest: Channel, system: bool)
    requires Running(Run(events), t)
    ensures
      var s := Run(events);
      var s' := Run(events + [SendRequest(t, dest, system)]);
      var m := Message(|s.calls|, true, system, Channel(t.proc, s.threads[t].ctx.cmpt), t.tid,
                       dest, Address(InProgress(Stack(s, t)), dest));
      s'.wire == s.wire + {m} && m !in s.wire && Waiting(s', t) && Top(s', t) == Wait(|s.calls|, dest)
  {
    RunOne(events, SendRequest(t, dest, system));
    TablesAgree(events, t);
    RunKeeps(events);
    hide Run;
    var s := Run(events);
    assert Find(s.threads[t].ctx.threads, dest) == Scan(InProgress(Stack(s, t)), dest);
    assert forall m <- s.wire :: MessageIs(s, m, OnWire);
  }

  /** A message taken off the wire goes into the queue of the thread it names, and that thread
      waits; a request that names none goes to the end of its process's default queue; a
      system request is answered in its place. */
  lemma DeliverPuts(events: seq<Event>, m: Message)
    requires m in Run(events).wire
    ensures
      var s := Run(events);
      var s' := Run(events + [Deliver(m)]);
      if m.isRequest && m.system then
        s'.wire == s.wire - {m} + {Message(m.call, false, true, m.dest, 0, m.src, m.srcThread)}
      else
        s'.wire == s.wire - {m}
        && if m.destThread != 0 then
             Waiting(s', Thread(m.dest.proc, m.destThread)) && Queue(s', Thread(m.dest.proc, m.destThread)) == [m]
           else m.isRequest && DefaultQueue(s', m.dest.proc) == DefaultQueue(s, m.dest.proc) + [m]
  {
    RunOne(events, Deliver(m));
    RunKeeps(events);
    var s := Run(events);
    DeliverInHand(s, m);
    hide Run, Inv, InHand, DoAnswer, ToThreadQueue, ToDefaultQueue;
    var s1 := s.(wire := s.wire - {m});
    if m.isRequest && m.system {
      AnswerIs(s1, m);
    } else if m.destThread != 0 {
      AddresseeIdle(s1, m);
      ToThreadQueueIs(s1, m);
    } else {
      Unaddressed(s1, m);
      ToDefaultQueueIs(s1, m);
    }
  }

  lemma AnswerIs(s: State, m: Message)
    ensures DoAnswer(s, m, Reply(m, 0)).wire ==
            s.wire + {Message(m.call, false, m.system, m.dest, 0, m.src, m.srcThread)}
  {
  }

  lemma ToThreadQueueIs(s: State, m: Message)
    requires Addressee(m) in s.threads
    ensures
      var s' := ToThreadQueue(s, m);
      s'.wire == s.wire && Stack(s', Addressee(m)) == Stack(s, Addressee(m))
      && Queue(s', Addressee(m)) == Queue(s, Addressee(m)) + [m]
  {
  }

  lemma ToDefaultQueueIs(s: State, m: Message)
    ensures
      var s' := ToDefaultQueue(s, m);
      s'.wire == s.wire && DefaultQueue(s', m.dest.proc) == DefaultQueue(s, m.dest.proc) + [m]
  {
  }

  /** Taking a request from the own queue while blocked, or from the default queue while not,
      serves it on top of the stack, in the compartment it names; a missing compartment is
      answered at once. */
  lemma TakeServes(events: seq<Event>, e: Event)
    requires (e.TakeOwn? || e.TakeDefault?) && Enabled(Run(events), e)
    requires var s := Run(events); e.TakeOwn? ==> Queue(s, e.t)[0].isRequest
    ensures
      var s := Run(events);
      var s' := Run(events + [e]);
      var m := if e.TakeOwn? then Queue(s, e.t)[0] else DefaultQueue(s, e.t.proc)[0];
      (if e.TakeOwn? then Queue(s', e.t) == [] else DefaultQueue(s', e.t.proc) == DefaultQueue(s, e.t.proc)[1..])
      && if e.found then
           var o := Origin(m.src, m.srcThread, m.dest.cmpt);
           Stack(s', e.t) == Stack(s, e.t) + [Serve(m.call, o, Save(s.threads[e.t].ctx, o))]
           && s'.threads[e.t].ctx.cmpt == m.dest.cmpt && s'.wire == s.wire
         else
           Stack(s', e.t) == Stack(s, e.t)
           && s'.wire == s.wire + {Message(m.call, false, m.system, m.dest, e.t.tid, m.src, m.srcThread)}
  {
    RunOne(events, e);
    RunKeeps(events);
    ResponseAnswersInnermost(events, e.t);
    hide Run, Inv;
  }

  /** A response ends the innermost wait, and nothing else changes for the thread. */
  lemma TakeReturns(events: seq<Event>, t: Thread, found: bool)
    requires Enabled(Run(events), TakeOwn(t, found)) && !Queue(Run(events), t)[0].isRequest
    ensures
      var s := Run(events);
      var s' := Run(events + [TakeOwn(t, found)]);
      Stack(s', t) == Stack(s, t)[..|Stack(s, t)| - 1] && Queue(s', t) == [] && s'.wire == s.wire
      && s'.threads[t].ctx == s.threads[t].ctx
      && Queue(s, t)[0].call < |s'.calls| && s'.calls[Queue(s, t)[0].call].status == Returned
  {
    RunOne(events, TakeOwn(t, found));
    RunKeeps(events);
    ResponseAnswersInnermost(events, t);
    hide Run;
    QueueHead(Run(events), t);
  }

  /** A request that is done is answered to the thread it came from, and its thread is again in
      the compartment it was in before. */
  lemma FinishAnswers(events: seq<Event>, t: Thread)
    requires Enabled(Run(events), Finish(t))
    ensures
      var s := Run(events);
      var s' := Run(events + [Finish(t)]);
      Top(s, t).Serve?
      && var f := Top(s, t);
         Stack(s', t) == Stack(s, t)[..|Stack(s, t)| - 1] && s'.threads[t].ctx.cmpt == f.saved.oldCmpt
         && s'.wire == s.wire + {Message(f.call, false, false, Channel(t.proc, f.origin.cmpt), t.tid,
                                         f.origin.src, f.origin.thread)}
         && f.call < |s.calls| && Thread(f.origin.src.proc, f.origin.thread) == s.calls[f.call].caller
  {
    RunOne(events, Finish(t));
    RunKeeps(events);
    hide Run;
    assert FrameOk(Run(events), t, |Stack(Run(events), t)| - 1);
  }

  // ---- Every step of a call goes forward ----

  /** The steps a call still has before it at most. */
  function Stage(st: Status): nat {
    match st
    case Sent(_, OnWire) => 5
    case Sent(_, _) => 4
    case Served(_, _) => 3
    case Answered(_, OnWire) => 2
    case Answered(_, _) => 1
    case Returned => 0
  }

  function Rest(calls: seq<CallRecord>): nat {
    if calls == [] then 0 else Rest(calls[..|calls| - 1]) + Stage(calls[|calls| - 1].status)
  }

  lemma {:induction false} RestChange(a: seq<CallRecord>, b: seq<CallRecord>, c: nat)
    requires c < |a| && |a| == |b| && forall i :: 0 <= i < |a| && i != c ==> a[i] == b[i]
    ensures Rest(b) == Rest(a) - Stage(a[c].status) + Stage(b[c].status)
    ensures Rest(a) >= Stage(a[c].status)
  {
    var n := |a| - 1;
    if c == n {
      assert a[..n] == b[..n];
    } else {
      RestChange(a[..n], b[..n], c);
    }
  }

  /** The steps that take a call on. */
  predicate Moves(s: State, e: Event) {
    (e.Deliver? || e.TakeOwn? || e.TakeDefault? || e.Finish?) && Enabled(s, e)
  }

  /** Only call `c` has a new status, and it is a later one. */
  predicate Advances(s: State, s': State, c: nat) {
    && c < |s.calls| && |s'.calls| == |s.calls|
    && (forall i :: 0 <= i < |s.calls| && i != c ==> s'.calls[i] == s.calls[i])
    && Stage(s'.calls[c].status) < Stage(s.calls[c].status)
  }

  /** The call that a step takes on. */
  function Moved(s: State, e: Event): nat
    requires Moves(s, e)
  {
    match e
    case Deliver(m) => m.call
    case TakeOwn(t, _) => Queue(s, t)[0].call
    case TakeDefault(t, _) => DefaultQueue(s, t.proc)[0].call
    case Finish(t) => Top(s, t).call
  }

  lemma MoveAdvances(s: State, e: Event)
    requires Inv(s) && Moves(s, e)
    ensures Advances(s, Next(s, e), Moved(s, e))
  {
    hide ContextOk, Nested;
    match e
    case Deliver(m) => DeliverAdvances(s, m);
    case TakeOwn(t, found) =>
      QueuedOnce(s, t);
      TakeOwnAdvances(s, t, found);
    case TakeDefault(t, found) =>
      TakeDefaultAdvances(s, t, found);
    case Finish(t) =>
      assert FrameOk(s, t, |Stack(s, t)| - 1);
  }

  lemma DeliverAdvances(s: State, m: Message)
    requires Inv(s) && m in s.wire
    ensures Advances(s, DoDeliver(s, m), m.call)
  {
    DeliverInHand(s, m);
    assert MessageIs(s, m, OnWire);
    var s1 := s.(wire := s.wire - {m});
    var c := m.call;
    assert CallOk(s, c);
    hide Inv, InHand;
    if m.isRequest && m.system {
    } else if m.destThread != 0 {
      AddresseeIdle(s1, m);
    } else {
      Unaddressed(s1, m);
    }
  }

  lemma TakeOwnAdvances(s: State, t: Thread, found: bool)
    requires Inv(s) && Enabled(s, TakeOwn(t, found))
    ensures Advances(s, Next(s, TakeOwn(t, found)), Queue(s, t)[0].call)
  {
    QueueHead(s, t);
    QueuedOnce(s, t);
    hide Inv;
  }

  lemma TakeDefaultAdvances(s: State, t: Thread, found: bool)
    requires Inv(s) && Enabled(s, TakeDefault(t, found))
    ensures Advances(s, Next(s, TakeDefault(t, found)), DefaultQueue(s, t.proc)[0].call)
  {
    TakeDefaultTaken(s, t.proc);
    var m := DefaultQueue(s, t.proc)[0];
    NotAnswered(s, m.call, m);
    hide Inv, Taken;
  }

  /** The moving steps of a run. */
  function MovesOf(events: seq<Event>): nat {
    if events == [] then 0
    else
      var before := events[..|events| - 1];
      MovesOf(before) + if Moves(Run(before), events[|events| - 1]) then 1 else 0
  }

  /** A run has at most five moving steps for each request: however the events are ordered,
      calls cannot keep each other busy for ever. */
  lemma {:induction false} FiveSteps(events: seq<Event>)
    ensures MovesOf(events) + Rest(Run(events).calls) <= 5 * |Run(events).calls|
  {
    if events != [] {
      var before := events[..|events| - 1];
      FiveSteps(before);
      RunKeeps(before);
      OneStep(Run(before), events[|events| - 1]);
    }
  }

  lemma OneStep(s: State, e: Event)
    requires Inv(s)
    ensures
      var s' := Next(s, e);
      if Moves(s, e) then |s'.calls| == |s.calls| && Rest(s'.calls) < Rest(s.calls)
      else Rest(s'.calls) - Rest(s.calls) == 5 * (|s'.calls| - |s.calls|)
  {
    var s' := Next(s, e);
    if Moves(s, e) {
      MoveAdvances(s, e);
      hide Inv, Next, Moves, Moved, Rest;
      RestChange(s.calls, s'.calls, Moved(s, e));
    } else if e.SendRequest? && Enabled(s, e) {
      hide Inv;
      assert s'.calls[..|s.calls|] == s.calls;
    }
  }

  // ---- What can be left ----

  /** A wait is for a later call than any call below it on the stack. */
  predicate OrderedStack(k: seq<Frame>) {
    forall i, j :: 0 <= i < j < |k| && k[j].Wait? ==> k[i].call < k[j].call
  }

  ghost predicate Ordered(s: State) {
    forall t :: OrderedStack(Stack(s, t))
  }

  lemma {:induction false} RunOrdered(events: seq<Event>)
    ensures Ordered(Run(events))
  {
    if events != [] {
      var before := events[..|events| - 1];
      RunOrdered(before);
      RunKeeps(before);
      hide Run;
      OrderedStep(Run(before), events[|events| - 1]);
    }
  }

  lemma OrderedStep(s: State, e: Event)
    requires Inv(s) && Ordered(s)
    ensures Ordered(Next(s, e))
  {
    hide Inv, Next;
    forall t ensures OrderedStack(Stack(Next(s, e), t)) {
      CallsBelow(s, t);
      StepStack(s, e, t);
      OrderedOn(Stack(s, t), Stack(Next(s, e), t));
    }
  }

  /** A stack loses its last frame, or gains a wait for a new call, or a frame that serves. */
  ghost predicate StackStep(k: seq<Frame>, k': seq<Frame>) {
    || k' <= k
    || (|k'| == |k| + 1 && k <= k' && k'[|k|].Serve?)
    || (|k'| == |k| + 1 && k <= k' && forall i :: 0 <= i < |k| ==> k[i].call < k'[|k|].call)
  }

  lemma OrderedOn(k: seq<Frame>, k': seq<Frame>)
    requires OrderedStack(k) && StackStep(k, k')
    ensures OrderedStack(k')
  {
  }

  ghost predicate Below(k: seq<Frame>, n: nat) {
    forall i :: 0 <= i < |k| ==> k[i].call < n
  }

  lemma CallsBelow(s: State, t: Thread)
    requires Inv(s)
    ensures Below(Stack(s, t), |s.calls|)
  {
    hide ContextOk, Nested, MessagesOk, CallOk;
    forall i | 0 <= i < |Stack(s, t)| ensures Stack(s, t)[i].call < |s.calls| {
      assert FrameOk(s, t, i);
    }
  }

  lemma StepStack(s: State, e: Event, t: Thread)
    requires Below(Stack(s, t), |s.calls|)
    ensures StackStep(Stack(s, t), Stack(Next(s, e), t))
  {
    if Enabled(s, e) {
      var k := Stack(s, t);
      var k' := Stack(Next(s, e), t);
      match e {
        case SendRequest(u, _, _) => assert u == t ==> k' == k + [Wait(|s.calls|, e.dest)];
        case Deliver(m) => assert k' == k;
        case TakeOwn(u, found) => assert u != t ==> k' == k;
        case TakeDefault(u, found) => assert u != t ==> k' == k;
        case _ =>
      }
    }
  }

  predicate Open(s: State, c: nat) {
    c < |s.calls| && !s.calls[c].status.Returned?
  }

  /** A process with a request in its default queue and no thread free to take it. */
  predicate Jammed(s: State, p: nat) {
    DefaultQueue(s, p) != [] && forall t <- s.threads :: t.proc == p ==> Waiting(s, t)
  }

  /** After any run, if no step can take any call on, and yet some call has not returned, then
      some process has a request in its default queue while all of its threads wait. */
  lemma OnlyJamsRemain(events: seq<Event>, c: nat)
    requires Open(Run(events), c) && forall e :: !Moves(Run(events), e)
    ensures exists p :: Jammed(Run(events), p)
  {
    RunKeeps(events);
    RunOrdered(events);
    hide Run;
    JamAbove(Run(events), c);
  }

  lemma {:induction false} JamAbove(s: State, c: nat)
    requires Inv(s) && Ordered(s) && Open(s, c) && forall e :: !Moves(s, e)
    ensures exists p :: Jammed(s, p)
    decreases |s.calls| - c
  {
    var st := s.calls[c].status;
    if st.Served? {
      var d := WaitAbove(s, c);
      JamAbove(s, d);
    } else {
      PendingJams(s, c);
    }
  }

  /** The thread that serves a call waits, if it cannot finish, for a later one. */
  lemma WaitAbove(s: State, c: nat) returns (d: nat)
    requires Inv(s) && Ordered(s) && c < |s.calls| && s.calls[c].status.Served? && forall e :: !Moves(s, e)
    ensures c < d && Open(s, d)
  {
    var t := s.calls[c].status.server;
    var i := s.calls[c].status.pos;
    ServedFrame(s, c);
    hide Inv;
    assert OrderedStack(Stack(s, t)) && !Moves(s, Finish(t));
    d := Top(s, t).call;
    AwaitedIsOpen(s, t);
  }

  lemma ServedFrame(s: State, c: nat)
    requires Inv(s) && c < |s.calls| && s.calls[c].status.Served?
    ensures
      var k, i := Stack(s, s.calls[c].status.server), s.calls[c].status.pos;
      i < |k| && k[i].Serve? && k[i].call == c
  {
    hide ThreadsOk, MessagesOk;
    assert CallOk(s, c);
  }

  lemma AwaitedIsOpen(s: State, t: Thread)
    requires Inv(s) && Waiting(s, t)
    ensures Open(s, Top(s, t).call)
  {
    hide ContextOk, Nested, MessagesOk, CallOk;
    assert FrameOk(s, t, |Stack(s, t)| - 1);
  }

  /** A message that cannot be moved on is one in a default queue. */
  lemma PendingJams(s: State, c: nat)
    requires Inv(s) && Open(s, c) && !s.calls[c].status.Served? && forall e :: !Moves(s, e)
    ensures exists p :: Jammed(s, p)
  {
    assert CallOk(s, c);
    var m := s.calls[c].status.msg;
    assert !Moves(s, Deliver(m)) && !Moves(s, TakeOwn(Addressee(m), true));
    assert s.calls[c].status == Sent(m, InDefaultQueue);
    var p := m.dest.proc;
    forall t | t in s.threads && t.proc == p ensures Waiting(s, t) {
      assert !Moves(s, TakeDefault(t, true));
    }
    assert Jammed(s, p);
  }
}
