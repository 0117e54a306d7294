/** The private state of one request-serving thread (`UserSession::ThreadContext`):
    which remote thread last called from each channel, and which compartment is running. */
module ThreadContexts {
  import opened Options

  /** A 32-bit channel id, split the way the code masks it: the owning process
      (`& 0xFFFFF000`) and the compartment inside that process (`& 0x00000FFF`). */
  datatype Channel = Channel(proc: nat, cmpt: nat)

  /** Thread ids are handles in 1..0xFFFF; 0 means "no particular thread". */
  type ThreadId = nat

  /** `m_mapChannelThreads` and `m_current_cmpt`. */
  datatype Context = Context(threads: map<Channel, ThreadId>, cmpt: nat)

  /** What `process_request` keeps on the machine stack: `v`/`old_thread_id` and `old_id`. */
  datatype Saved = Saved(oldThread: Option<ThreadId>, oldCmpt: nat)

  /** The part of an incoming request that the context depends on. */
  datatype Origin = Origin(src: Channel, thread: ThreadId, cmpt: nat)

  function Find(threads: map<Channel, ThreadId>, c: Channel): Option<ThreadId> {
    if c in threads then Some(threads[c]) else None
  }

  /** The destination thread of an outgoing request. */
  function Target(ctx: Context, dest: Channel): ThreadId {
    if dest in ctx.threads then ctx.threads[dest] else 0
  }

  function Save(ctx: Context, o: Origin): Saved {
    Saved(Find(ctx.threads, o.src), ctx.cmpt)
  }

  function Enter(ctx: Context, o: Origin): Context {
    Context(ctx.threads[o.src := o.thread], o.cmpt)
  }

  /** `process_request` after the call: put the old entry back if there was one (and it is
      still there), otherwise remove the entry; restore the compartment. */
  function Leave(ctx: Context, o: Origin, saved: Saved): Context {
    match saved.oldThread
    case Some(t) => Context(if o.src in ctx.threads then ctx.threads[o.src := t] else ctx.threads, saved.oldCmpt)
    case None => Context(ctx.threads - {o.src}, saved.oldCmpt)
  }

  lemma LeaveUndoesEnter(ctx: Context, o: Origin, inner: Context)
    requires inner.threads == Enter(ctx, o).threads
    ensures Leave(inner, o, Save(ctx, o)) == ctx
  {
    assert Leave(inner, o, Save(ctx, o)).threads == ctx.threads;
  }

  // ---- The specification: a scan of the stack of requests in progress ----

  /** The source thread of the innermost request in progress that came from `c`. */
  function Scan(inProgress: seq<Origin>, c: Channel): Option<ThreadId> {
    if inProgress == [] then None
    else
      var last := inProgress[|inProgress| - 1];
      if last.src == c then Some(last.thread) else Scan(inProgress[..|inProgress| - 1], c)
  }

  /** The table says for every channel exactly what the scan says. */
  ghost predicate Agrees(threads: map<Channel, ThreadId>, inProgress: seq<Origin>) {
    forall c: Channel :: Find(threads, c) == Scan(inProgress, c)
  }

  lemma EnterAgrees(ctx: Context, o: Origin, inProgress: seq<Origin>)
    requires Agrees(ctx.threads, inProgress)
    ensures Agrees(Enter(ctx, o).threads, inProgress + [o])
  {
    assert (inProgress + [o])[..|inProgress|] == inProgress;
  }

  lemma {:induction false} ScanFindsFrame(inProgress: seq<Origin>, c: Channel) returns (i: nat)
    requires Scan(inProgress, c).Some?
    ensures i < |inProgress| && inProgress[i].src == c && inProgress[i].thread == Scan(inProgress, c).value
    ensures forall k :: i < k < |inProgress| ==> inProgress[k].src != c
  {
    var n := |inProgress| - 1;
    if inProgress[n].src == c {
      i := n;
    } else {
      i := ScanFindsFrame(inProgress[..n], c);
    }
  }

  /** A table entry exists exactly for the channels of requests in progress. */
  lemma {:induction false} ScanIsNone(inProgress: seq<Origin>, c: Channel)
    ensures Scan(inProgress, c).None? <==> forall k :: 0 <= k < |inProgress| ==> inProgress[k].src != c
  {
    if inProgress != [] {
      var n := |inProgress| - 1;
      ScanIsNone(inProgress[..n], c);
      assert forall k :: 0 <= k < n ==> inProgress[..n][k] == inProgress[k];
    }
  }

  // ---- The class ----

  /** What a request handler does: the requests it sends, and the callbacks that arrive and
      are served while it waits for each answer. A request for a missing compartment is
      refused; a handler may end with an exception, which changes nothing here. */
  datatype Work = Work(origin: Origin, found: bool, calls: seq<Call>)
  datatype Call = Call(dest: Channel, callbacks: seq<Work>)

  /** One request header as sent: source compartment, destination and destination thread. */
  datatype Header = Header(cmpt: nat, dest: Channel, thread: ThreadId)

  function Address(inProgress: seq<Origin>, c: Channel): ThreadId {
    match Scan(inProgress, c) case None => 0 case Some(t) => t
  }

  /** The headers a piece of work must send, addressed by scanning the stack. */
  function Headers(inProgress: seq<Origin>, w: Work): seq<Header>
    decreases w, 0
  {
    if w.found then HeadersOfCalls(inProgress + [w.origin], w.origin.cmpt, w.calls) else []
  }

  function HeadersOfCalls(inProgress: seq<Origin>, cmpt: nat, calls: seq<Call>): seq<Header>
    decreases calls, 0
  {
    if calls == [] then []
    else [Header(cmpt, calls[0].dest, Address(inProgress, calls[0].dest))]
         + HeadersOfAll(inProgress, calls[0].callbacks)
         + HeadersOfCalls(inProgress, cmpt, calls[1..])
  }

  function HeadersOfAll(inProgress: seq<Origin>, ws: seq<Work>): seq<Header>
    decreases ws, 1
  {
    if ws == [] then [] else Headers(inProgress, ws[0]) + HeadersOfAll(inProgress, ws[1..])
  }

  /** A handler calls back to where its request came from, serves a callback that does the same
      while it waits, and then calls back once more: each header names the thread of the
      innermost request, also when both requests came from one channel. A request for a missing
      compartment sends nothing. */
  lemma {:induction false} NestedHeaders(inProgress: seq<Origin>, o: Origin, p: Origin, other: Channel)
    requires forall i :: 0 <= i < |inProgress| ==> inProgress[i].src != other
    requires other != o.src
    ensures
      var callback := Work(p, true, [Call(p.src, [])]);
      var work := Work(o, true, [Call(o.src, [callback]), Call(o.src, []), Call(other, [])]);
      Headers(inProgress, work) == [Header(o.cmpt, o.src, o.thread), Header(p.cmpt, p.src, p.thread),
                                    Header(o.cmpt, o.src, o.thread), Header(o.cmpt, other, 0)]
    ensures forall calls :: Headers(inProgress, Work(o, false, calls)) == []
  {
    var inner := inProgress + [o];
    var calls := [Call(o.src, [Work(p, true, [Call(p.src, [])])]), Call(o.src, []), Call(other, [])];
    ScanIsNone(inner, other);
    OneHeader(inner, p);
    assert inner[|inner| - 1] == o && (inner + [p])[|inner|] == p;
    assert calls[1..] == [Call(o.src, []), Call(other, [])] && calls[1..][1..] == [Call(other, [])];
    assert calls[1..][1..][1..] == [];
    hide Scan;
    assert HeadersOfAll(inner, []) == [];
    assert HeadersOfCalls(inner, o.cmpt, []) == [];
    assert HeadersOfCalls(inner, o.cmpt, calls[1..][1..]) == [Header(o.cmpt, other, 0)];
    assert HeadersOfCalls(inner, o.cmpt, calls[1..]) == [Header(o.cmpt, o.src, o.thread), Header(o.cmpt, other, 0)];
  }

  lemma {:induction false} OneHeader(inProgress: seq<Origin>, p: Origin)
    ensures HeadersOfAll(inProgress, [Work(p, true, [Call(p.src, [])])]) == [Header(p.cmpt, p.src, p.thread)]
  {
    var w := Work(p, true, [Call(p.src, [])]);
    assert [w][1..] == [] && w.calls[1..] == [];
    assert (inProgress + [p])[|inProgress|] == p;
    assert HeadersOfAll(inProgress + [p], []) == [];
    assert HeadersOfCalls(inProgress + [p], p.cmpt, w.calls) == [Header(p.cmpt, p.src, p.thread)];
    assert Headers(inProgress, w) == [Header(p.cmpt, p.src, p.thread)];
  }

  lemma HeadersStep(inner: seq<Origin>, cmpt: nat, calls: seq<Call>, i: nat, before: seq<Header>)
    requires i < |calls|
    ensures before + HeadersOfCalls(inner, cmpt, calls[i..])
         == before + [Header(cmpt, calls[i].dest, Address(inner, calls[i].dest))]
            + HeadersOfAll(inner, calls[i].callbacks) + HeadersOfCalls(inner, cmpt, calls[i + 1..])
  {
    assert calls[i..][1..] == calls[i + 1..];
  }

  class ThreadContext {
    var channelThreads: map<Channel, ThreadId>
    var currentCmpt: nat
    var sent: seq<Header>

    constructor ()
      ensures channelThreads == map[] && currentCmpt == 0 && sent == []
    {
      channelThreads, currentCmpt, sent := map[], 0, [];
    }

    function View(): Context
      reads this
    {
      Context(channelThreads, currentCmpt)
    }

    /** `send_request`: look up the destination thread, send the header, then serve
        whatever arrives until the answer does. */
    method SendRequest(call: Call, ghost inProgress: seq<Origin>)
      requires Agrees(channelThreads, inProgress)
      modifies this
      ensures View() == old(View())
      ensures sent == old(sent) + [Header(currentCmpt, call.dest, Address(inProgress, call.dest))]
                      + HeadersOfAll(inProgress, call.callbacks)
      decreases call, 0
    {
      var thread := 0;
      if call.dest in channelThreads {
        thread := channelThreads[call.dest];
      }
      assert Find(channelThreads, call.dest) == Scan(inProgress, call.dest);
      sent := sent + [Header(currentCmpt, call.dest, thread)];
      ghost var header := sent;
      var i := 0;
      while i < |call.callbacks|
        invariant 0 <= i <= |call.callbacks|
        invariant View() == old(View())
        invariant sent + HeadersOfAll(inProgress, call.callbacks[i..])
               == header + HeadersOfAll(inProgress, call.callbacks)
      {
        ghost var before := sent;
        ProcessRequest(call.callbacks[i], inProgress);
        assert call.callbacks[i..][1..] == call.callbacks[i + 1..];
        assert before + HeadersOfAll(inProgress, call.callbacks[i..])
            == before + Headers(inProgress, call.callbacks[i]) + HeadersOfAll(inProgress, call.callbacks[i + 1..]);
        i := i + 1;
      }
    }

    /** `process_request`: nested to any depth it leaves the table and the compartment
        exactly as it found them, and every call made on the way is addressed to the thread
        that the scan of the requests in progress names. */
    method ProcessRequest(w: Work, ghost inProgress: seq<Origin>)
      requires Agrees(channelThreads, inProgress)
      modifies this
      ensures View() == old(View())
      ensures sent == old(sent) + Headers(inProgress, w)
      decreases w, 1
    {
      if !w.found {
        return;
      }
      var src := w.origin.src;
      var oldThread := 0;
      var v := src in channelThreads;
      if v {
        oldThread := channelThreads[src];
      }
      channelThreads := channelThreads[src := w.origin.thread];
      var oldId := currentCmpt;
      currentCmpt := w.origin.cmpt;

      ghost var inner := inProgress + [w.origin];
      EnterAgrees(old(View()), w.origin, inProgress);
      ghost var entered := View();
      var i := 0;
      while i < |w.calls|
        invariant 0 <= i <= |w.calls|
        invariant View() == entered
        invariant sent + HeadersOfCalls(inner, entered.cmpt, w.calls[i..])
               == old(sent) + HeadersOfCalls(inner, entered.cmpt, w.calls)
      {
        ghost var before := sent;
        SendRequest(w.calls[i], inner);
        HeadersStep(inner, entered.cmpt, w.calls, i, before);
        i := i + 1;
      }

      if v {
        if src in channelThreads {
          channelThreads := channelThreads[src := oldThread];
        }
      } else {
        channelThreads := channelThreads - {src};
      }
      currentCmpt := oldId;
      LeaveUndoesEnter(old(View()), w.origin, entered);
      assert View() == Leave(entered, w.origin, Save(old(View()), w.origin));
    }
  }
}
