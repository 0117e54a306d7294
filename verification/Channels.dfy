/** 32-bit channel ids, and what a MessageHandler decides about them (MessageConnection.cpp,
    RootManager.cpp, UserManager.cpp). */
module Channels {
  import opened Options

  /** The fields of a channel id that the masks of all handlers cut out: the on-machine bit
      0x80000000, the user 0x7F000000, the client 0x00FFF000 and the compartment 0x00000FFF. */
  datatype Id = Id(top: bv1, user: bv7, client: bv12, cmpt: bv12)

  function PackBits(t: bv1, u: bv7, c: bv12, m: bv12): bv32 {
    ((t as bv32) << 31) | ((u as bv32) << 24) | ((c as bv32) << 12) | (m as bv32)
  }

  function Pack(i: Id): bv32 {
    PackBits(i.top, i.user, i.client, i.cmpt)
  }

  const ROOT := Id(1, 0, 0, 0)

  /** A `MessageHandler`: its own id, masks and upstream link, and for root the sandbox. */
  datatype Handler = Handler(id: bv32, mask: bv32, childMask: bv32, upstream: bv32, isRoot: bool, sandbox: bv32)

  /** `set_channel(0x80000000,0x80000000,0x7F000000,0)` */
  function RootHandler(sandbox: bv32): Handler {
    Handler(0x8000_0000, 0x8000_0000, 0x7F00_0000, 0, true, sandbox)
  }

  /** `set_channel(our_channel,0xFF000000,0x00FFF000,0x80000000)` */
  function UserHandler(id: bv32): Handler {
    Handler(id, 0xFF00_0000, 0x00FF_F000, 0x8000_0000, false, 0)
  }

  predicate CanRoute(h: Handler, src: bv32, dest: bv32) {
    src != 0 && dest != 0 && src != dest
    && (h.isRoot ==>
          And(src, 0xFF00_0000) == And(h.sandbox, 0xFF00_0000) || And(dest, 0xFF00_0000) == And(h.sandbox, 0xFF00_0000))
  }

  function And(x: bv32, y: bv32): bv32 { x & y }
  function Or(x: bv32, y: bv32): bv32 { x | y }

  /** What `parse_message` does with a message: handle it, refuse it, send it off the
      machine, or look up a link. */
  datatype Decision<T> = Local | Refuse | RouteOff | Link(id: T)

  function Route(h: Handler, dest: bv32, src: bv32): Decision<bv32> {
    if And(dest, h.mask) == h.id then
      if And(dest, h.childMask) == 0 then Local
      else if And(src, h.mask) == h.id && !CanRoute(h, src, dest) then Refuse
      else Link(And(dest, Or(h.mask, h.childMask)))
    else if h.upstream != 0 && And(dest, h.upstream) == 0 then RouteOff
    else Link(h.upstream)
  }

  // ---- The same decisions on fields ----

  predicate SameUser(a: Id, b: Id) {
    a.top == b.top && a.user == b.user
  }

  function UserPart(i: Id): Id {
    i.(client := 0, cmpt := 0)
  }

  function ClientPart(i: Id): Id {
    i.(cmpt := 0)
  }

  const NULL := Id(0, 0, 0, 0)

  /** `MessageHandler::can_route` */
  predicate UserCanRoute(src: Id, dest: Id) {
    src != NULL && dest != NULL && src != dest
  }

  /** `Root::Manager::can_route` */
  predicate RootCanRoute(sandbox: Id, src: Id, dest: Id) {
    UserCanRoute(src, dest) && (SameUser(src, sandbox) || SameUser(dest, sandbox))
  }

  function RouteAtRoot(sandbox: Id, dest: Id, src: Id): Decision<Id> {
    if dest.top == 1 then
      if dest.user == 0 then Local
      else if src.top == 1 && !RootCanRoute(sandbox, src, dest) then Refuse
      else Link(UserPart(dest))
    else Link(NULL)
  }

  function RouteAtUser(user: Id, dest: Id, src: Id): Decision<Id> {
    if SameUser(dest, user) then
      if dest.client == 0 then Local
      else if SameUser(src, user) && !UserCanRoute(src, dest) then Refuse
      else Link(ClientPart(dest))
    else if dest.top == 0 then RouteOff
    else Link(ROOT)
  }

  function PackDecision(d: Decision<Id>): Decision<bv32> {
    match d
    case Local => Local
    case Refuse => Refuse
    case RouteOff => RouteOff
    case Link(i) => Link(Pack(i))
  }

  // ---- The masks cut out the fields ----

  lemma FieldBits(b: bv32, t: bv1, u: bv7, c: bv12, m: bv12)
    requires b == ((t as bv32) << 31) | ((u as bv32) << 24) | ((c as bv32) << 12) | (m as bv32)
    ensures ((b >> 31) & 1) as bv1 == t && ((b >> 24) & 0x7F) as bv7 == u
    ensures ((b >> 12) & 0xFFF) as bv12 == c && (b & 0xFFF) as bv12 == m
  {
  }

  lemma PackBitsFields(t: bv1, u: bv7, c: bv12, m: bv12)
    ensures
      var b := PackBits(t, u, c, m);
      ((b >> 31) & 1) as bv1 == t && ((b >> 24) & 0x7F) as bv7 == u
      && ((b >> 12) & 0xFFF) as bv12 == c && (b & 0xFFF) as bv12 == m
  {
    FieldBits(PackBits(t, u, c, m), t, u, c, m);
  }

  lemma PackInjective(a: Id, b: Id)
    ensures Pack(a) == Pack(b) <==> a == b
  {
    hide PackBits;
    PackBitsFields(a.top, a.user, a.client, a.cmpt);
    PackBitsFields(b.top, b.user, b.client, b.cmpt);
  }

  lemma TopBits(b: bv32, r: bv32, t: bv1, u: bv7, c: bv12, m: bv12)
    requires b == ((t as bv32) << 31) | ((u as bv32) << 24) | ((c as bv32) << 12) | (m as bv32)
    requires r == ((t as bv32) << 31) | ((0 as bv32) << 24) | ((0 as bv32) << 12) | (0 as bv32)
    ensures b & 0x8000_0000 == r
  {
  }

  lemma TopMask(t: bv1, u: bv7, c: bv12, m: bv12)
    ensures PackBits(t, u, c, m) & 0x8000_0000 == PackBits(t, 0, 0, 0)
  {
    TopBits(PackBits(t, u, c, m), PackBits(t, 0, 0, 0), t, u, c, m);
  }

  lemma UserBits(b: bv32, r: bv32, t: bv1, u: bv7, c: bv12, m: bv12)
    requires b == ((t as bv32) << 31) | ((u as bv32) << 24) | ((c as bv32) << 12) | (m as bv32)
    requires r == ((0 as bv32) << 31) | ((u as bv32) << 24) | ((0 as bv32) << 12) | (0 as bv32)
    ensures b & 0x7F00_0000 == r
  {
  }

  lemma UserMask(t: bv1, u: bv7, c: bv12, m: bv12)
    ensures PackBits(t, u, c, m) & 0x7F00_0000 == PackBits(0, u, 0, 0)
  {
    UserBits(PackBits(t, u, c, m), PackBits(0, u, 0, 0), t, u, c, m);
  }

  lemma PrefixBits(b: bv32, r: bv32, t: bv1, u: bv7, c: bv12, m: bv12)
    requires b == ((t as bv32) << 31) | ((u as bv32) << 24) | ((c as bv32) << 12) | (m as bv32)
    requires r == ((t as bv32) << 31) | ((u as bv32) << 24) | ((0 as bv32) << 12) | (0 as bv32)
    ensures b & 0xFF00_0000 == r
  {
  }

  lemma PrefixMask(t: bv1, u: bv7, c: bv12, m: bv12)
    ensures PackBits(t, u, c, m) & 0xFF00_0000 == PackBits(t, u, 0, 0)
  {
    PrefixBits(PackBits(t, u, c, m), PackBits(t, u, 0, 0), t, u, c, m);
  }

  lemma ClientBits(b: bv32, r: bv32, t: bv1, u: bv7, c: bv12, m: bv12)
    requires b == ((t as bv32) << 31) | ((u as bv32) << 24) | ((c as bv32) << 12) | (m as bv32)
    requires r == ((0 as bv32) << 31) | ((0 as bv32) << 24) | ((c as bv32) << 12) | (0 as bv32)
    ensures b & 0x00FF_F000 == r
  {
  }

  lemma ClientMask(t: bv1, u: bv7, c: bv12, m: bv12)
    ensures PackBits(t, u, c, m) & 0x00FF_F000 == PackBits(0, 0, c, 0)
  {
    ClientBits(PackBits(t, u, c, m), PackBits(0, 0, c, 0), t, u, c, m);
  }

  lemma ProcessBits(b: bv32, r: bv32, t: bv1, u: bv7, c: bv12, m: bv12)
    requires b == ((t as bv32) << 31) | ((u as bv32) << 24) | ((c as bv32) << 12) | (m as bv32)
    requires r == ((t as bv32) << 31) | ((u as bv32) << 24) | ((c as bv32) << 12) | (0 as bv32)
    ensures b & 0xFFFF_F000 == r
  {
  }

  lemma ProcessMask(t: bv1, u: bv7, c: bv12, m: bv12)
    ensures PackBits(t, u, c, m) & 0xFFFF_F000 == PackBits(t, u, c, 0)
  {
    ProcessBits(PackBits(t, u, c, m), PackBits(t, u, c, 0), t, u, c, m);
  }

  lemma TopIs(i: Id)
    ensures And(Pack(i), 0x8000_0000) == Pack(Id(i.top, 0, 0, 0))
  {
    hide PackBits;
    TopMask(i.top, i.user, i.client, i.cmpt);
  }

  lemma UserIs(i: Id)
    ensures And(Pack(i), 0x7F00_0000) == Pack(Id(0, i.user, 0, 0))
  {
    hide PackBits;
    UserMask(i.top, i.user, i.client, i.cmpt);
  }

  lemma PrefixIs(i: Id)
    ensures And(Pack(i), 0xFF00_0000) == Pack(UserPart(i))
  {
    hide PackBits;
    PrefixMask(i.top, i.user, i.client, i.cmpt);
  }

  lemma ClientIs(i: Id)
    ensures And(Pack(i), 0x00FF_F000) == Pack(Id(0, 0, i.client, 0))
  {
    hide PackBits;
    ClientMask(i.top, i.user, i.client, i.cmpt);
  }

  lemma ProcessIs(i: Id)
    ensures And(Pack(i), 0xFFFF_F000) == Pack(ClientPart(i))
  {
    hide PackBits;
    ProcessMask(i.top, i.user, i.client, i.cmpt);
  }

  /** Every mask the code uses, as a choice of fields. */
  lemma Masks(i: Id)
    ensures And(Pack(i), 0x8000_0000) == Pack(Id(i.top, 0, 0, 0))
    ensures And(Pack(i), 0x7F00_0000) == Pack(Id(0, i.user, 0, 0))
    ensures And(Pack(i), 0xFF00_0000) == Pack(UserPart(i))
    ensures And(Pack(i), 0x00FF_F000) == Pack(Id(0, 0, i.client, 0))
    ensures And(Pack(i), 0xFFFF_F000) == Pack(ClientPart(i))
  {
    hide Pack, And;
    TopIs(i);
    UserIs(i);
    PrefixIs(i);
    ClientIs(i);
    ProcessIs(i);
  }

  lemma Constants()
    ensures Pack(NULL) == 0 && Pack(ROOT) == 0x8000_0000
  {
  }

  lemma Unions()
    ensures Or(0x8000_0000, 0x7F00_0000) == 0xFF00_0000 && Or(0xFF00_0000, 0x00FF_F000) == 0xFFFF_F000
  {
  }

  lemma SameUserIs(a: Id, b: Id)
    ensures And(Pack(a), 0xFF00_0000) == And(Pack(b), 0xFF00_0000) <==> SameUser(a, b)
  {
    hide Pack, And;
    Masks(a);
    Masks(b);
    PackInjective(UserPart(a), UserPart(b));
  }

  /** The root handler decides by fields. */
  lemma RootRoutes(sandbox: Id, dest: Id, src: Id)
    ensures Route(RootHandler(Pack(sandbox)), Pack(dest), Pack(src)) == PackDecision(RouteAtRoot(sandbox, dest, src))
  {
    hide Pack, CanRoute, And, Or;
    Constants();
    Unions();
    Masks(dest);
    Masks(src);
    PackInjective(Id(dest.top, 0, 0, 0), ROOT);
    PackInjective(Id(src.top, 0, 0, 0), ROOT);
    PackInjective(Id(0, dest.user, 0, 0), NULL);
    RootCanRouteIs(sandbox, src, dest);
  }

  lemma RootCanRouteIs(sandbox: Id, src: Id, dest: Id)
    ensures CanRoute(RootHandler(Pack(sandbox)), Pack(src), Pack(dest)) <==> RootCanRoute(sandbox, src, dest)
  {
    hide Pack, And;
    Constants();
    PackInjective(src, NULL);
    PackInjective(dest, NULL);
    PackInjective(src, dest);
    SameUserIs(src, sandbox);
    SameUserIs(dest, sandbox);
  }

  lemma UserCanRouteIs(user: Id, src: Id, dest: Id)
    ensures CanRoute(UserHandler(Pack(user)), Pack(src), Pack(dest)) <==> UserCanRoute(src, dest)
  {
    hide Pack, And;
    Constants();
    PackInjective(src, NULL);
    PackInjective(dest, NULL);
    PackInjective(src, dest);
  }

  /** So does the handler of a user process. */
  lemma UserRoutes(user: Id, dest: Id, src: Id)
    requires user == UserPart(user)
    ensures Route(UserHandler(Pack(user)), Pack(dest), Pack(src)) == PackDecision(RouteAtUser(user, dest, src))
  {
    hide Pack, CanRoute, And, Or;
    Constants();
    Unions();
    Masks(dest);
    Masks(src);
    PackInjective(UserPart(dest), user);
    PackInjective(UserPart(src), user);
    PackInjective(Id(0, 0, dest.client, 0), NULL);
    PackInjective(Id(dest.top, 0, 0, 0), NULL);
    UserCanRouteIs(user, src, dest);
  }

  // ---- The tree of processes ----

  /** Root, the user processes (the sandbox is one) and the clients of each. */
  datatype Net = Net(users: set<bv7>, clients: map<bv7, set<bv12>>, sandbox: bv7)

  datatype Process = Root | User(u: bv7) | Client(u: bv7, c: bv12)

  ghost predicate NetOk(n: Net) {
    && 0 !in n.users && n.sandbox in n.users
    && n.clients.Keys == n.users
    && forall u <- n.users :: 0 !in n.clients[u]
  }

  predicate Exists(n: Net, p: Process) {
    match p
    case Root => true
    case User(u) => u in n.users
    case Client(u, c) => u in n.users && u in n.clients && c in n.clients[u]
  }

  /** The channel id that is a process's prefix. */
  function IdOf(p: Process): Id {
    match p
    case Root => ROOT
    case User(u) => Id(1, u, 0, 0)
    case Client(u, c) => Id(1, u, c, 0)
  }

  /** The process whose prefix an on-machine id has. */
  function Named(i: Id): Process {
    if i.user == 0 then Root else if i.client == 0 then User(i.user) else Client(i.user, i.client)
  }

  /** The process at the other end of a link of `p`, found by its channel id in the table
      `m_mapChannelIds`: children by their id, and root from a user process. */
  function Neighbour(n: Net, p: Process, link: Id): Option<Process> {
    match p
    case Root => if link == IdOf(User(link.user)) && Exists(n, User(link.user)) then Some(User(link.user)) else None
    case User(u) =>
      if link == ROOT then Some(Root)
      else if link == IdOf(Client(u, link.client)) && Exists(n, Client(u, link.client)) then Some(Client(u, link.client))
      else None
    case Client(_, _) => None
  }
}
