/** The way of a message through the tree of root, user processes and clients: `parse_message`
    hop by hop (MessageConnection.cpp:277-380), the first hop of `send_request` (954-978), and
    the filter for misdirected packets of a client (UserSession.cpp:357-359). */
module Routing {
  import opened Channels
  import opened Options

  /** How a message ends: handled by the process it names, refused by `can_route`, answered
      with a close notice, not sent at all (`channel_closed` to the caller), handed to
      `do_route_off`, or skipped by a client it does not name. */
  datatype End = Delivered | Refused | CloseNotice | NotSent | OffMachine | Skipped

  datatype Hop = Go(to: Process) | Stop(end: End)

  // ---- The first hop ----

  /** The link `send_request` picks for a message that its handler originates. */
  function SendLink(h: Handler, dest: bv32): Decision<bv32> {
    if h.upstream != 0 && And(dest, h.upstream) == 0 then RouteOff
    else if And(dest, h.mask) == h.id then Link(And(dest, Or(h.mask, h.childMask)))
    else Link(h.upstream)
  }

  function SendAtRoot(dest: Id): Decision<Id> {
    if dest.top == 1 then Link(UserPart(dest)) else Link(NULL)
  }

  function SendAtUser(user: Id, dest: Id): Decision<Id> {
    if dest.top == 0 then RouteOff
    else if SameUser(dest, user) then Link(ClientPart(dest))
    else Link(ROOT)
  }

  lemma RootSends(sandbox: Id, dest: Id)
    ensures SendLink(RootHandler(Pack(sandbox)), Pack(dest)) == PackDecision(SendAtRoot(dest))
  {
    hide Pack, And, Or;
    Constants();
    Unions();
    Masks(dest);
    PackInjective(Id(dest.top, 0, 0, 0), ROOT);
  }

  lemma UserSends(user: Id, dest: Id)
    requires user == UserPart(user)
    ensures SendLink(UserHandler(Pack(user)), Pack(dest)) == PackDecision(SendAtUser(user, dest))
  {
    hide Pack, And, Or;
    Constants();
    Unions();
    Masks(dest);
    PackInjective(UserPart(dest), user);
    PackInjective(Id(dest.top, 0, 0, 0), NULL);
  }

  /** A client reads only what carries its own prefix. */
  lemma ClientAccepts(own: Id, dest: Id)
    requires own == ClientPart(own)
    ensures And(Pack(dest), 0xFFFF_F000) == Pack(own) <==> ClientPart(dest) == own
  {
    hide Pack, And;
    Masks(dest);
    PackInjective(ClientPart(dest), own);
  }

  // ---- Hops ----

  function Follow(n: Net, p: Process, d: Decision<Id>, missing: End): Hop {
    match d
    case Local => Stop(Delivered)
    case Refuse => Stop(Refused)
    case RouteOff => Stop(OffMachine)
    case Link(l) =>
      match Neighbour(n, p, l)
      case Some(q) => Go(q)
      case None => Stop(missing)
  }

  /** A client has one stream, to its user process; a server handler looks up a link. */
  function Depart(n: Net, p: Process, dest: Id): Hop {
    match p
    case Root => Follow(n, p, SendAtRoot(dest), NotSent)
    case User(_) => Follow(n, p, SendAtUser(IdOf(p), dest), NotSent)
    case Client(u, _) => Go(User(u))
  }

  function Arrive(n: Net, p: Process, dest: Id, src: Id): Hop {
    match p
    case Root => Follow(n, p, RouteAtRoot(IdOf(User(n.sandbox)), dest, src), CloseNotice)
    case User(_) => Follow(n, p, RouteAtUser(IdOf(p), dest, src), CloseNotice)
    case Client(_, _) => Stop(if ClientPart(dest) == IdOf(p) then Delivered else Skipped)
  }

  /** `path` is where a message from `path[0]` has been, in order. */
  ghost predicate Walk(n: Net, path: seq<Process>, dest: Id, src: Id) {
    && path != []
    && (|path| > 1 ==> Depart(n, path[0], dest) == Go(path[1]))
    && forall i :: 1 <= i < |path| - 1 ==> Arrive(n, path[i], dest, src) == Go(path[i + 1])
  }

  function Next(n: Net, path: seq<Process>, dest: Id, src: Id): Hop
    requires path != []
  {
    if |path| == 1 then Depart(n, path[0], dest) else Arrive(n, path[|path| - 1], dest, src)
  }

  // ---- What should happen ----

  /** Every source id a process puts into its messages: its own, with any compartment when it
      is a client. */
  predicate SourceOf(src: Id, p: Process) {
    if p.Client? then ClientPart(src) == IdOf(p) else src == IdOf(p)
  }

  function Down(q: Process): seq<Process> {
    match q
    case Root => []
    case User(_) => [q]
    case Client(u, _) => [User(u), q]
  }

  /** The processes between `p` and `q` in the tree, both included; a client always starts
      with its user process. */
  function Way(p: Process, q: Process): seq<Process> {
    match p
    case Root => [Root] + Down(q)
    case User(u) =>
      if q == p then [p]
      else if q.Client? && q.u == u then [p, q]
      else [p, Root] + Down(q)
    case Client(u, _) =>
      if q == User(u) then [p, q]
      else if q.Client? && q.u == u then [p, User(u), q]
      else [p, User(u), Root] + Down(q)
  }

  predicate Crosses(p: Process, q: Process) {
    !p.Root? && !q.Root? && p.u != q.u
  }

  /** The last process above `q` that is there. */
  function Holder(n: Net, q: Process): Process {
    if q.Client? && Exists(n, User(q.u)) then User(q.u) else Root
  }

  /** The fate of a message from `p`, and the process that decides it. */
  function Fate(n: Net, p: Process, src: Id, dest: Id): (End, Process) {
    var q := Named(dest);
    if p == q && !p.Client? then (NotSent, p)
    else if p == q && src == dest then (Refused, User(p.u))
    else if Crosses(p, q) && p.u != n.sandbox && q.u != n.sandbox then (Refused, Root)
    else if Exists(n, q) then (Delivered, q)
    else (if Holder(n, q) == p then NotSent else CloseNotice, Holder(n, q))
  }

  /** An off-machine id leaves the tree at the first user process, which hands it to
      `do_route_off`; root has no link for it. */
  lemma OffMachineStops(n: Net, u: bv7, c: bv12, dest: Id, src: Id)
    requires NetOk(n) && u in n.users && dest.top == 0
    ensures Depart(n, User(u), dest) == Arrive(n, User(u), dest, src) == Stop(OffMachine)
    ensures Depart(n, Client(u, c), dest) == Go(User(u))
    ensures Depart(n, Root, dest) == Stop(NotSent) && Arrive(n, Root, dest, src) == Stop(CloseNotice)
  {
  }

  // ---- Proofs ----

  ghost predicate OnMachine(n: Net, p: Process, src: Id, dest: Id) {
    NetOk(n) && Exists(n, p) && SourceOf(src, p) && dest.top == 1
  }

  /** The next hop follows the way, or the message has met its fate. */
  predicate Keeps(n: Net, p: Process, dest: Id, src: Id, path: seq<Process>)
    requires path != []
  {
    var way := Way(p, Named(dest));
    match Next(n, path, dest, src)
    case Go(q) => |path| < |way| && q == way[|path|]
    case Stop(e) => Fate(n, p, src, dest) == (e, path[|path| - 1])
  }

  /** One more hop from a walk that has followed the way so far. */
  lemma NextHop(n: Net, p: Process, dest: Id, src: Id, path: seq<Process>)
    requires OnMachine(n, p, src, dest) && Walk(n, path, dest, src)
    requires path <= Way(p, Named(dest))
    ensures Keeps(n, p, dest, src, path)
  {
    hide Keeps;
    match p
    case Root => FromRoot(n, dest, src, path);
    case User(_) => FromUser(n, p, dest, src, path);
    case Client(_, _) =>
      if |path| <= 2 {
        NearClient(n, p, dest, src, path);
      } else {
        FarFromClient(n, p, dest, src, path);
      }
  }

  lemma FromRoot(n: Net, dest: Id, src: Id, path: seq<Process>)
    requires OnMachine(n, Root, src, dest) && Walk(n, path, dest, src)
    requires path <= Way(Root, Named(dest))
    ensures Keeps(n, Root, dest, src, path)
  {
    assert path[0] == Root;
  }

  /** Root, with a message from below for itself or for another subtree. */
  lemma AtRoot(n: Net, p: Process, dest: Id, src: Id)
    requires OnMachine(n, p, src, dest) && !p.Root? && p.u != dest.user
    ensures match Arrive(n, Root, dest, src)
            case Go(q) => q == User(dest.user) && Exists(n, q) && (p.u == n.sandbox || dest.user == n.sandbox)
            case Stop(e) => Fate(n, p, src, dest) == (e, Root)
  {
  }

  /** The user process a message comes down to. */
  lemma AtForeignUser(n: Net, p: Process, dest: Id, src: Id)
    requires OnMachine(n, p, src, dest) && !p.Root? && p.u != dest.user && Exists(n, User(dest.user))
    requires p.u == n.sandbox || dest.user == n.sandbox
    ensures match Arrive(n, User(dest.user), dest, src)
            case Go(q) => q == Named(dest) && q.Client? && Exists(n, q)
            case Stop(e) => Fate(n, p, src, dest) == (e, User(dest.user))
  {
  }

  lemma AtForeignClient(n: Net, p: Process, dest: Id, src: Id)
    requires OnMachine(n, p, src, dest) && !p.Root? && p.u != dest.user && Named(dest).Client? && Exists(n, Named(dest))
    requires p.u == n.sandbox || dest.user == n.sandbox
    ensures Arrive(n, Named(dest), dest, src) == Stop(Delivered) && Fate(n, p, src, dest) == (Delivered, Named(dest))
  {
  }

  /** From `path[k]`, which is root, downwards. */
  lemma FromRootDown(n: Net, p: Process, dest: Id, src: Id, path: seq<Process>, k: nat)
    requires OnMachine(n, p, src, dest) && Walk(n, path, dest, src) && !p.Root? && p.u != dest.user
    requires 1 <= k < |path| && path[k] == Root && path[k..] <= [Root] + Down(Named(dest))
    requires Way(p, Named(dest)) == path[..k] + [Root] + Down(Named(dest))
    ensures Keeps(n, p, dest, src, path)
  {
    hide Arrive, Fate, Way;
    AtRoot(n, p, dest, src);
    if k + 1 < |path| {
      assert Arrive(n, path[k], dest, src) == Go(path[k + 1]);
      AtForeignUser(n, p, dest, src);
      if k + 2 < |path| {
        assert Arrive(n, path[k + 1], dest, src) == Go(path[k + 2]);
        AtForeignClient(n, p, dest, src);
      }
    }
  }

  lemma FromUser(n: Net, p: Process, dest: Id, src: Id, path: seq<Process>)
    requires OnMachine(n, p, src, dest) && Walk(n, path, dest, src) && p.User?
    requires path <= Way(p, Named(dest))
    ensures Keeps(n, p, dest, src, path)
  {
    assert path[0] == p;
    if |path| > 1 && path[1] == Root {
      assert Way(p, Named(dest)) == [p, Root] + Down(Named(dest));
      assert path[..1] == [p];
      FromRootDown(n, p, dest, src, path, 1);
    }
  }

  /** The user process of a client, with a message from it. */
  lemma AtOwnUser(n: Net, p: Process, dest: Id, src: Id)
    requires OnMachine(n, p, src, dest) && p.Client?
    ensures match Arrive(n, User(p.u), dest, src)
            case Go(q) => q == if p.u == dest.user then Named(dest) else Root
            case Stop(e) => p.u == dest.user && Fate(n, p, src, dest) == (e, User(p.u))
    ensures p.u == dest.user && Named(dest).User? ==> Arrive(n, User(p.u), dest, src).Stop?
  {
  }

  lemma NearClient(n: Net, p: Process, dest: Id, src: Id, path: seq<Process>)
    requires OnMachine(n, p, src, dest) && Walk(n, path, dest, src) && p.Client? && |path| <= 2
    requires path <= Way(p, Named(dest))
    ensures Keeps(n, p, dest, src, path)
  {
    hide Arrive, Fate;
    assert path[0] == p;
    if |path| == 2 {
      AtOwnUser(n, p, dest, src);
      assert Next(n, path, dest, src) == Arrive(n, User(p.u), dest, src);
    }
  }

  lemma FarFromClient(n: Net, p: Process, dest: Id, src: Id, path: seq<Process>)
    requires OnMachine(n, p, src, dest) && Walk(n, path, dest, src) && p.Client? && |path| > 2
    requires path <= Way(p, Named(dest))
    ensures Keeps(n, p, dest, src, path)
  {
    assert path[0] == p && path[1] == User(p.u);
    if path[2] == Root {
      assert Way(p, Named(dest)) == [p, User(p.u), Root] + Down(Named(dest));
      assert path[..2] == [p, User(p.u)];
      FromRootDown(n, p, dest, src, path, 2);
    } else {
      assert |path| == 3 && path[2] == Named(dest);
      Hops(n, path, dest, src);
    }
  }

  lemma Hops(n: Net, path: seq<Process>, dest: Id, src: Id)
    requires Walk(n, path, dest, src)
    ensures |path| > 2 ==> Arrive(n, path[1], dest, src) == Go(path[2])
  {
  }

  /** Every message to an on-machine id walks along the tree: at most four hops, no handler
      twice, and where it stops it has met its fate. */
  lemma {:induction false} EveryWalk(n: Net, p: Process, dest: Id, src: Id, path: seq<Process>)
    requires OnMachine(n, p, src, dest) && Walk(n, path, dest, src) && path[0] == p
    ensures path <= Way(p, Named(dest)) && |path| <= 5
    ensures forall i, j :: 1 <= i < j < |path| ==> path[i] != path[j]
    ensures Next(n, path, dest, src).Go? ==> |path| < 5 && Walk(n, path + [Next(n, path, dest, src).to], dest, src)
    ensures Next(n, path, dest, src).Stop? ==>
              Fate(n, p, src, dest) == (Next(n, path, dest, src).end, path[|path| - 1])
    decreases |path|
  {
    WayStart(p, Named(dest));
    if |path| > 1 {
      var before := path[..|path| - 1];
      EveryWalk(n, p, dest, src, before);
      NextHop(n, p, dest, src, before);
      LastHop(n, path, dest, src);
      assert path == before + [Next(n, before, dest, src).to];
    }
    NextHop(n, p, dest, src, path);
  }

  lemma LastHop(n: Net, path: seq<Process>, dest: Id, src: Id)
    requires Walk(n, path, dest, src) && |path| > 1
    ensures Walk(n, path[..|path| - 1], dest, src)
    ensures Next(n, path[..|path| - 1], dest, src) == Go(path[|path| - 1])
  {
  }

  lemma WayStart(p: Process, q: Process)
    ensures Way(p, q) != [] && Way(p, q)[0] == p && |Way(p, q)| <= 5
    ensures forall i, j :: 1 <= i < j < |Way(p, q)| ==> Way(p, q)[i] != Way(p, q)[j]
  {
  }

  /** So there is a walk that stops. */
  lemma {:induction false} WalkStops(n: Net, p: Process, dest: Id, src: Id, path: seq<Process>) returns (whole: seq<Process>)
    requires OnMachine(n, p, src, dest) && Walk(n, path, dest, src) && path[0] == p
    ensures path <= whole && Walk(n, whole, dest, src) && Next(n, whole, dest, src).Stop?
    decreases 5 - |path|
  {
    EveryWalk(n, p, dest, src, path);
    match Next(n, path, dest, src) {
      case Stop(_) => whole := path;
      case Go(q) => 
        EveryWalk(n, p, dest, src, path + [q]);
        whole := WalkStops(n, p, dest, src, path + [q]);
    }
  }

  /** Root forwards between two user subtrees only if one of them is the sandbox's. */
  lemma OnlyThroughSandbox(n: Net, p: Process, dest: Id, src: Id, path: seq<Process>, i: nat)
    requires OnMachine(n, p, src, dest) && Walk(n, path, dest, src) && path[0] == p
    requires 0 < i < |path| - 1 && path[i] == Root
    ensures path[i - 1].User? && path[i + 1].User?
    ensures path[i - 1].u == n.sandbox || path[i + 1].u == n.sandbox
  {
    EveryWalk(n, p, dest, src, path);
    assert Arrive(n, path[i], dest, src) == Go(path[i + 1]);
  }

  /** A close notice sent by `at` in answer gets back to the process that sent the message. */
  lemma NoticeReturns(n: Net, p: Process, dest: Id, src: Id, at: Process)
    requires OnMachine(n, p, src, dest) && Fate(n, p, src, dest) == (CloseNotice, at)
    ensures OnMachine(n, at, IdOf(at), src) && Fate(n, at, IdOf(at), src) == (Delivered, p)
  {
  }
}
