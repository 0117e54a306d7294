/** Runs of several processes that share upstream tables: what holds in every reachable state
    of the running object tables (RunningObjectTable.cpp:82-255, UserROT.cpp:44-227). */
module RunningObjectRuns {
  import opened Options
  import opened RunningObjects

  /** `clients` are the tables of processes, `up` the chain above all of them. `log` has what
      every `GetObject` was served; `todo` has the single-use entries of which the revocation is
      still to come; `count` is the number of registrations so far. */
  datatype System = System(clients: seq<Table>, up: seq<Table>, dead: set<Object>, count: nat,
                           log: seq<Answer>, todo: multiset<Pending>)

  /** `again`: the revocation of this very entry was still to come when it was served. */
  datatype Answer = Answer(hit: Hit, again: bool)
  datatype Pending = Pending(who: Who, cookie: nat, hit: Hit)

  /** Who calls: the process of a client table, or somebody else directly at `up[k]`, seen with
      a source id that no table has (0 when the call is not remote). */
  datatype Who = Client(i: nat) | At(k: nat, source: nat)

  /** `Got` is a whole call of `GetObject` that nothing comes between. A call that others come
      between is taken apart where the code gives up its lock: `Looked` is the scan of one
      table, `Popped` the revocation of the single-use entry found. The revocations of dead
      entries are `Revoked` events, and the call upstream is another one `At` that table. */
  datatype Event =
    | Registered(who: Who, oid: Oid, obj: Object, flags: Flags)
    | Got(who: Who, oid: Oid, far: nat -> bool, supports: set<Object>)
    | Looked(who: Who, oid: Oid, far: nat -> bool, supports: set<Object>)
    | Popped(p: Pending)
    | Revoked(who: Who, cookie: nat)
    | Died(obj: Object)

  function All(s: System): seq<Table> {
    s.clients + s.up
  }

  ghost predicate WhoOk(s: System, who: Who) {
    match who
    case Client(i) => i < |s.clients|
    case At(k, source) => k < |s.up| && forall t <- All(s) :: t.name != source
  }

  function Chain(s: System, who: Who): seq<Table>
    requires if who.Client? then who.i < |s.clients| else who.k < |s.up|
  {
    match who
    case Client(i) => [s.clients[i]] + s.up
    case At(k, _) => s.up[k..]
  }

  function SourceOf(who: Who): nat {
    if who.Client? then 0 else who.source
  }

  /** The tables of the caller's chain are now `chain`. */
  function Put(s: System, who: Who, chain: seq<Table>): System
    requires if who.Client? then who.i < |s.clients| && |chain| == 1 + |s.up| else who.k < |s.up|
  {
    match who
    case Client(i) => s.(clients := s.clients[i := chain[0]], up := chain[1..])
    case At(k, _) => s.(up := s.up[..k] + chain)
  }

  ghost predicate Enabled(s: System, e: Event) {
    match e
    case Died(_) => true
    case Popped(p) => p in s.todo && WhoOk(s, p.who)
    case _ => WhoOk(s, e.who)
  }

  /** The caller's first table is asked; a table revokes its own list without naming a source. */
  function Unsourced(who: Who): Who {
    if who.Client? then who else At(who.k, 0)
  }

  /** The entry that a scan of the first table of a chain serves. */
  function Look(chain: seq<Table>, oid: Oid, far: nat -> bool, dead: set<Object>, supports: set<Object>)
    : (r: Option<nat>)
    requires chain != []
    ensures r.Some? ==> r.value in chain[0].byCookie
  {
    var t := chain[0];
    var f := Scan(t, CookiesOf(t, oid), Search(far(t.name), |chain| == 1), dead);
    if f.hit.Some? && t.byCookie[f.hit.value].obj in supports then f.hit else None
  }

  function HitOf(t: Table, c: nat): Hit
    requires c in t.byCookie
  {
    var info := t.byCookie[c];
    Hit(t.name, info.serial, info.obj, Has(info.flags, SINGLE_USE))
  }

  /** A whole call that its first table answers is the look and all revocations at once. */
  lemma GetIsLook(chain: seq<Table>, oid: Oid, far: nat -> bool, dead: set<Object>, supports: set<Object>)
    requires chain != [] && Look(chain, oid, far, dead, supports).Some?
    ensures
      var c := Look(chain, oid, far, dead, supports).value;
      var h := HitOf(chain[0], c);
      var list := Scan(chain[0], CookiesOf(chain[0], oid), Search(far(chain[0].name), |chain| == 1), dead).list;
      Get(chain, oid, far, dead, supports) == (RevokeAll(chain, if h.single then list + [c] else list), Some(h))
  {
  }

  ghost predicate InFlight(s: System, h: Hit) {
    exists p <- s.todo :: SameEntry(p.hit, h)
  }

  ghost function Logged(s: System, h: Hit): System {
    s.(log := s.log + [Answer(h, InFlight(s, h))])
  }

  ghost function AfterLook(s: System, e: Event): System
    requires e.Looked? && WhoOk(s, e.who)
  {
    var chain := Chain(s, e.who);
    match Look(chain, e.oid, e.far, s.dead, e.supports)
    case None => s
    case Some(c) =>
      var h := HitOf(chain[0], c);
      if h.single then Logged(s, h).(todo := s.todo + multiset{Pending(Unsourced(e.who), c, h)}) else Logged(s, h)
  }

  ghost function Next(s: System, e: Event, pick: Pick): System
    requires Enabled(s, e)
  {
    match e
    case Registered(who, oid, obj, flags) =>
      var (chain, _) := Register(Chain(s, who), SourceOf(who), Request(oid, obj, flags, s.count), s.dead, pick);
      Put(s, who, chain).(count := s.count + 1)
    case Got(who, oid, far, supports) =>
      var (chain, hit) := Get(Chain(s, who), oid, far, s.dead, supports);
      if hit.Some? then Logged(Put(s, who, chain), hit.value) else Put(s, who, chain)
    case Looked(_, _, _, _) => AfterLook(s, e)
    case Popped(p) =>
      Put(s, p.who, Revoke(Chain(s, p.who), p.cookie, SourceOf(p.who))).(todo := s.todo - multiset{p})
    case Revoked(who, cookie) => Put(s, who, Revoke(Chain(s, who), cookie, SourceOf(who)))
    case Died(obj) => s.(dead := s.dead + {obj})
  }

  ghost predicate Legal(s: System, events: seq<Event>, pick: Pick)
    decreases |events|
  {
    events == [] || (Enabled(s, events[0]) && Legal(Next(s, events[0], pick), events[1..], pick))
  }

  ghost function Run(s: System, events: seq<Event>, pick: Pick): System
    requires Legal(s, events, pick)
    decreases |events|
  {
    if events == [] then s else Run(Next(s, events[0], pick), events[1..], pick)
  }

  // ---- The invariant ----

  /** The tables show different names; only the clients' are local. */
  ghost predicate Shape(s: System) {
    && (forall i, j :: 0 <= i < j < |All(s)| ==> All(s)[i].name != All(s)[j].name)
    && (forall i :: 0 <= i < |s.clients| ==> s.clients[i].local)
    && (forall k :: 0 <= k < |s.up| ==> !s.up[k].local)
  }

  ghost predicate Serials(t: Table, count: nat) {
    && (forall c :: c in t.byCookie ==> t.byCookie[c].serial < count)
    && (forall c, d :: c in t.byCookie && d in t.byCookie && c != d ==> t.byCookie[c].serial != t.byCookie[d].serial)
  }

  /** The entry of a single-use hit is in no table of that name. */
  ghost predicate Spent(t: Table, h: Hit) {
    h.single && t.name == h.table ==> forall c :: c in t.byCookie ==> t.byCookie[c].serial != h.serial
  }

  predicate SameEntry(g: Hit, h: Hit) {
    g.table == h.table && g.serial == h.serial
  }

  ghost predicate Gone(s: System, h: Hit) {
    forall i :: 0 <= i < |All(s)| ==> Spent(All(s)[i], h)
  }

  /** Was the entry of answer `b`, as one for single use, served before? */
  ghost predicate Before(log: seq<Answer>, b: nat)
    requires b < |log|
  {
    exists a :: 0 <= a < b && log[a].hit.single && SameEntry(log[a].hit, log[b].hit)
  }

  ghost predicate AnswerOk(s: System, b: nat)
    requires b < |s.log|
  {
    var h := s.log[b].hit;
    h.serial < s.count && (Gone(s, h) || InFlight(s, h)) && (s.log[b].again <==> Before(s.log, b))
  }

  ghost predicate LogOk(s: System) {
    forall b :: 0 <= b < |s.log| ==> AnswerOk(s, b)
  }

  ghost predicate OnlyUnder(t: Table, serial: nat, cookie: nat) {
    forall c :: c in t.byCookie && t.byCookie[c].serial == serial ==> c == cookie
  }

  /** What is to be revoked was served, and stands in its table under its cookie or nowhere. */
  ghost predicate PendingOk(s: System, p: Pending) {
    && WhoOk(s, p.who) && SourceOf(p.who) == 0 && Chain(s, p.who)[0].name == p.hit.table
    && p.hit.serial < s.count && p.hit.single
    && OnlyUnder(Chain(s, p.who)[0], p.hit.serial, p.cookie)
    && exists a :: 0 <= a < |s.log| && s.log[a].hit.single && SameEntry(s.log[a].hit, p.hit)
  }

  ghost predicate NoOrphans(s: System) {
    Linked(s.up) && forall i :: 0 <= i < |s.clients| && s.up != [] ==> Backed(s.clients[i], s.up[0])
  }

  ghost predicate Inv(s: System) {
    && Shape(s) && AllOk(All(s), s.dead) && NoOrphans(s)
    && (forall i :: 0 <= i < |All(s)| ==> Serials(All(s)[i], s.count))
    && LogOk(s) && forall p <- s.todo :: PendingOk(s, p)
  }

  /** The tables before the first call. */
  ghost predicate Fresh(s: System) {
    && Shape(s) && s.log == [] && s.todo == multiset{}
    && forall i :: 0 <= i < |All(s)| ==>
         All(s)[i].byCookie == map[] && All(s)[i].byOid == map[] && All(s)[i].name != 0
  }

  lemma FreshOk(s: System)
    requires Fresh(s)
    ensures Inv(s)
  {
    forall i | 0 <= i < |s.up| ensures s.up[i].byCookie == map[] {
      assert All(s)[|s.clients| + i] == s.up[i];
    }
  }

  /** The source that a change of the caller's chain shows to table `j` of the system. */
  function Shown(s: System, who: Who, j: nat): nat
    requires j < |All(s)|
  {
    if who.Client? && j == who.i then 0
    else if who.At? && j == |s.clients| + who.k then who.source
    else if j == |s.clients| then (if who.Client? && who.i < |s.clients| then s.clients[who.i].name else 0)
    else if j > |s.clients| then s.up[j - |s.clients| - 1].name
    else 0
  }

  /** A call changed the caller's chain, and nothing else. */
  ghost predicate Stepped(s: System, who: Who, n: System, serial: nat) {
    && |n.clients| == |s.clients| && |n.up| == |s.up|
    && forall j :: 0 <= j < |All(s)| ==> Changed(All(s)[j], All(n)[j], Shown(s, who, j), serial)
  }

  lemma PutSteps(s: System, who: Who, chain: seq<Table>, serial: nat)
    requires WhoOk(s, who) && AllChanged(Chain(s, who), chain, SourceOf(who), serial)
    ensures Stepped(s, who, Put(s, who, chain), serial)
  {
    hide Changed;
    var n, c := Put(s, who, chain), Chain(s, who);
    forall j | 0 <= j < |All(s)| ensures Changed(All(s)[j], All(n)[j], Shown(s, who, j), serial) {
      var base := if who.Client? then |s.clients| - 1 else |s.clients| + who.k;
      if who.Client? && j == who.i {
        assert Changed(c[0], chain[0], SourceAt(c, 0, 0), serial);
      } else if j >= |s.clients| && j >= base {
        var i := j - base;
        assert Changed(c[i], chain[i], SourceAt(c, i, SourceOf(who)), serial);
      } else {
        Unchanged(All(s)[j], Shown(s, who, j), serial);
      }
    }
  }

  lemma Unchanged(t: Table, source: nat, serial: nat)
    ensures Changed(t, t, source, serial)
  {
  }

  lemma LessChanged(was: seq<Table>, now: seq<Table>, source: nat, serial: nat)
    requires AllLess(was, now)
    ensures AllChanged(was, now, source, serial)
  {
    forall i | 0 <= i < |was| ensures Changed(was[i], now[i], SourceAt(was, i, source), serial) {
      assert Less(was[i], now[i]);
    }
  }

  lemma ChainIsOk(s: System, who: Who)
    requires Inv(s) && WhoOk(s, who)
    ensures AllOk(Chain(s, who), s.dead) && Linked(Chain(s, who))
    ensures Chain(s, who) != [] && (Chain(s, who)[0].local ==> SourceOf(who) == 0)
  {
    hide TableOk, Backed;
    AllParts(s);
    match who
    case Client(i) =>
      assert TableOk(s.clients[i], s.dead);
      Cons(s.clients[i], s.up, s.dead);
    case At(k, _) =>
      var c := s.up[k..];
      forall i | 0 < i < |c| ensures Backed(c[i - 1], c[i]) && !c[i].local {
        assert Backed(s.up[k + i - 1], s.up[k + i]);
      }
  }

  lemma AllParts(s: System)
    requires AllOk(All(s), s.dead)
    ensures AllOk(s.clients, s.dead) && AllOk(s.up, s.dead)
  {
    hide TableOk;
    forall i | 0 <= i < |s.clients| ensures TableOk(s.clients[i], s.dead) {
      assert All(s)[i] == s.clients[i];
    }
    forall i | 0 <= i < |s.up| ensures TableOk(s.up[i], s.dead) {
      assert All(s)[|s.clients| + i] == s.up[i];
    }
  }

  /** Entries made by one table do not pass for entries of another. */
  lemma BackedByOther(t: Table, was: Table, now: Table, source: nat, serial: nat)
    requires Backed(t, was) && Changed(was, now, source, serial) && source != t.name
    ensures Backed(t, now)
  {
  }

  lemma NoOrphansStep(s: System, who: Who, chain: seq<Table>)
    requires Inv(s) && WhoOk(s, who) && AllChanged(Chain(s, who), chain, SourceOf(who), s.count)
    requires Linked(chain)
    ensures NoOrphans(Put(s, who, chain))
  {
    hide Changed, Backed, TableOk, Serials, LogOk, PendingOk;
    var n, c := Put(s, who, chain), Chain(s, who);
    match who
    case Client(i) =>
      forall k | 0 < k < |n.up| ensures Backed(n.up[k - 1], n.up[k]) && !n.up[k].local {
        assert Backed(chain[k + 1 - 1], chain[k + 1]);
      }
      if n.up != [] {
        assert Backed(chain[1 - 1], chain[1]);
        assert Changed(c[1], chain[1], SourceAt(c, 1, 0), s.count);
        forall j | 0 <= j < |s.clients| && j != i ensures Backed(s.clients[j], n.up[0]) {
          Different(s, i, j);
          BackedByOther(s.clients[j], s.up[0], n.up[0], s.clients[i].name, s.count);
        }
      }
    case At(k, source) =>
      assert Changed(c[0], chain[0], SourceAt(c, 0, source), s.count);
      forall m | 0 < m < |n.up| ensures Backed(n.up[m - 1], n.up[m]) && !n.up[m].local {
        if m > k {
          assert Backed(chain[m - k - 1], chain[m - k]);
        } else {
          assert Backed(s.up[m - 1], s.up[m]);
          NotNamed(s, source, |s.clients| + m - 1);
          if m == k {
            BackedByOther(s.up[m - 1], s.up[m], n.up[m], source, s.count);
            StillRemote(s.up[m], n.up[m], source, s.count);
          }
        }
      }
      if k == 0 {
        forall j | 0 <= j < |s.clients| ensures Backed(s.clients[j], n.up[0]) {
          NotNamed(s, source, j);
          BackedByOther(s.clients[j], s.up[0], n.up[0], source, s.count);
        }
      }
  }

  lemma StillRemote(was: Table, now: Table, source: nat, serial: nat)
    requires Changed(was, now, source, serial)
    ensures now.local == was.local && now.name == was.name
  {
  }

  lemma Different(s: System, i: nat, j: nat)
    requires Shape(s) && i < |s.clients| && j < |s.clients| && i != j
    ensures s.clients[i].name != s.clients[j].name
  {
    assert All(s)[i] == s.clients[i] && All(s)[j] == s.clients[j];
  }

  lemma NotNamed(s: System, source: nat, j: nat)
    requires (forall t <- All(s) :: t.name != source) && j < |All(s)|
    ensures All(s)[j].name != source
    ensures j < |s.clients| ==> s.clients[j].name != source
    ensures j >= |s.clients| ==> s.up[j - |s.clients|].name != source
  {
    assert All(s)[j] in All(s);
  }

  lemma ShapeStep(s: System, who: Who, n: System, serial: nat)
    requires Shape(s) && Stepped(s, who, n, serial)
    ensures Shape(n)
  {
    forall j | 0 <= j < |All(s)| ensures All(n)[j].name == All(s)[j].name && All(n)[j].local == All(s)[j].local {
      StillRemote(All(s)[j], All(n)[j], Shown(s, who, j), serial);
    }
    forall k | 0 <= k < |s.up| ensures !n.up[k].local {
      assert All(s)[|s.clients| + k] == s.up[k] && All(n)[|s.clients| + k] == n.up[k];
    }
    forall i | 0 <= i < |s.clients| ensures n.clients[i].local {
      assert All(s)[i] == s.clients[i] && All(n)[i] == n.clients[i];
    }
  }

  lemma AllOkStep(s: System, who: Who, chain: seq<Table>)
    requires AllOk(All(s), s.dead) && WhoOk(s, who) && |chain| == |Chain(s, who)| && AllOk(chain, s.dead)
    ensures AllOk(All(Put(s, who, chain)), s.dead)
  {
    hide TableOk;
    var n := Put(s, who, chain);
    forall j | 0 <= j < |All(n)| ensures TableOk(All(n)[j], s.dead) {
      assert j < |All(s)|;
      if who.Client? && j >= |s.clients| {
        assert All(n)[j] == chain[j - |s.clients| + 1];
      } else if who.At? && j >= |s.clients| + who.k {
        assert All(n)[j] == chain[j - |s.clients| - who.k];
      } else if who.Client? && j == who.i {
        assert All(n)[j] == chain[0];
      } else {
        assert All(n)[j] == All(s)[j];
      }
    }
  }

  lemma SerialsStep(was: Table, now: Table, source: nat, count: nat)
    requires Serials(was, count) && Changed(was, now, source, count)
    ensures Serials(now, count + 1)
  {
  }

  lemma SpentStep(was: Table, now: Table, source: nat, serial: nat, h: Hit)
    requires Spent(was, h) && Changed(was, now, source, serial) && h.serial < serial
    ensures Spent(now, h)
  {
  }

  /** Position of table `i` of the caller's chain among all tables. */
  function Place(s: System, who: Who, i: nat): nat {
    match who
    case Client(c) => if i == 0 then c else |s.clients| + i - 1
    case At(k, _) => |s.clients| + k + i
  }

  lemma AnswerStep(s: System, who: Who, n: System, b: nat)
    requires b < |s.log| && AnswerOk(s, b) && Stepped(s, who, n, s.count)
    requires n.log == s.log && n.todo == s.todo && n.count >= s.count
    ensures AnswerOk(n, b)
  {
    hide Changed, Spent, Before;
    var h := s.log[b].hit;
    if Gone(s, h) {
      forall j | 0 <= j < |All(n)| ensures Spent(All(n)[j], h) {
        assert j < |All(s)| && Spent(All(s)[j], h);
        SpentStep(All(s)[j], All(n)[j], Shown(s, who, j), s.count, h);
      }
    }
  }

  lemma WhoStays(s: System, who: Who, n: System, w: Who)
    requires WhoOk(s, w) && Stepped(s, who, n, s.count)
    ensures WhoOk(n, w)
  {
    hide Changed;
    forall j | 0 <= j < |All(n)| ensures w.At? ==> All(n)[j].name != w.source {
      assert j < |All(s)| && All(s)[j] in All(s);
      StillRemote(All(s)[j], All(n)[j], Shown(s, who, j), s.count);
    }
  }

  /** The caller's first table. */
  lemma FirstTable(s: System, who: Who)
    requires WhoOk(s, who)
    ensures Place(s, who, 0) < |All(s)| && Chain(s, who)[0] == All(s)[Place(s, who, 0)]
  {
  }

  lemma PendingStep(s: System, who: Who, n: System, p: Pending)
    requires PendingOk(s, p) && Stepped(s, who, n, s.count)
    requires n.log == s.log && n.count >= s.count
    ensures PendingOk(n, p)
  {
    WhoStays(s, who, n, p.who);
    FirstTable(s, p.who);
    FirstTable(n, p.who);
    var j := Place(s, p.who, 0);
    assert Changed(All(s)[j], All(n)[j], Shown(s, who, j), s.count);
  }

  /** A registration keeps the invariant. */
  lemma RegisteredOk(s: System, e: Event, pick: Pick)
    requires Inv(s) && Enabled(s, e) && e.Registered? && PickOk(pick)
    ensures Inv(Next(s, e, pick))
  {
    hide TableOk, Backed, Changed, Serials, Spent, Register, NoOrphans, AllChanged, PickOk, LogOk, PendingOk;
    var q := Request(e.oid, e.obj, e.flags, s.count);
    var (chain, _) := Register(Chain(s, e.who), SourceOf(e.who), q, s.dead, pick);
    ChainIsOk(s, e.who);
    RegisterKeeps(Chain(s, e.who), SourceOf(e.who), q, s.dead, pick);
    CallOk(s, e.who, chain);
  }

  /** Any change of one chain by one call keeps the invariant, counting the call. */
  lemma CallOk(s: System, who: Who, chain: seq<Table>)
    requires Inv(s) && WhoOk(s, who) && AllChanged(Chain(s, who), chain, SourceOf(who), s.count)
    requires AllOk(chain, s.dead) && Linked(chain)
    ensures Inv(Put(s, who, chain).(count := s.count + 1))
    ensures Stepped(s, who, Put(s, who, chain), s.count)
  {
    hide TableOk, Backed, Changed, Serials, Spent, NoOrphans, LogOk, PendingOk;
    var n := Put(s, who, chain);
    PutSteps(s, who, chain, s.count);
    ShapeStep(s, who, n, s.count);
    AllOkStep(s, who, chain);
    NoOrphansStep(s, who, chain);
    forall j | 0 <= j < |All(s)| ensures Serials(All(n)[j], s.count + 1) {
      assert Changed(All(s)[j], All(n)[j], Shown(s, who, j), s.count);
      SerialsStep(All(s)[j], All(n)[j], Shown(s, who, j), s.count);
    }
    CountFrame(n, s.count + 1);
    BooksStep(s, who, n.(count := s.count + 1));
  }

  lemma BooksStep(s: System, who: Who, n: System)
    requires LogOk(s) && (forall p <- s.todo :: PendingOk(s, p)) && Stepped(s, who, n, s.count)
    requires n.log == s.log && n.todo == s.todo && n.count >= s.count
    ensures LogOk(n) && forall p <- n.todo :: PendingOk(n, p)
  {
    hide Stepped, AnswerOk, PendingOk;
    forall b | 0 <= b < |n.log| ensures AnswerOk(n, b) {
      AnswerStep(s, who, n, b);
    }
    forall p | p in n.todo ensures PendingOk(n, p) {
      PendingStep(s, who, n, p);
    }
  }

  lemma CountFrame(s: System, count: nat)
    ensures All(s.(count := count)) == All(s)
    ensures NoOrphans(s) ==> NoOrphans(s.(count := count))
  {
  }

  lemma LessSerials(was: Table, now: Table, count: nat)
    requires Serials(was, count) && Less(was, now)
    ensures Serials(now, count)
  {
  }

  lemma LessStep(s: System, who: Who, chain: seq<Table>)
    requires WhoOk(s, who) && AllLess(Chain(s, who), chain)
    ensures var n := Put(s, who, chain);
            |n.clients| == |s.clients| && |n.up| == |s.up| && AllLess(All(s), All(n))
  {
    hide Less;
    var n, c := Put(s, who, chain), Chain(s, who);
    forall j | 0 <= j < |All(s)| ensures Less(All(s)[j], All(n)[j]) {
      if who.Client? && j >= |s.clients| {
        assert Less(c[j - |s.clients| + 1], chain[j - |s.clients| + 1]);
      } else if who.At? && j >= |s.clients| + who.k {
        assert Less(c[j - |s.clients| - who.k], chain[j - |s.clients| - who.k]);
      } else if who.Client? && j == who.i {
        assert Less(c[0], chain[0]);
      } else {
        SelfLess(All(s)[j]);
      }
    }
  }

  lemma SelfLess(t: Table)
    ensures Less(t, t)
  {
  }

  /** So does any call that only takes entries away; it does not count. */
  lemma TakingOk(s: System, who: Who, chain: seq<Table>)
    requires Inv(s) && WhoOk(s, who) && AllLess(Chain(s, who), chain) && AllOk(chain, s.dead) && Linked(chain)
    ensures Inv(Put(s, who, chain))
  {
    hide TableOk, Backed, Changed, Serials, Spent, NoOrphans, Less, LogOk, PendingOk;
    var n := Put(s, who, chain);
    LessChanged(Chain(s, who), chain, SourceOf(who), s.count);
    CallOk(s, who, chain);
    CountFrame(n, s.count + 1);
    CountFrame(n.(count := s.count + 1), s.count);
    assert n.(count := s.count + 1).(count := s.count) == n;
    BooksStep(s, who, n);
    TakenSerials(s, who, chain);
  }

  lemma TakenSerials(s: System, who: Who, chain: seq<Table>)
    requires WhoOk(s, who) && AllLess(Chain(s, who), chain)
    requires forall i :: 0 <= i < |All(s)| ==> Serials(All(s)[i], s.count)
    ensures var n := Put(s, who, chain); forall i :: 0 <= i < |All(n)| ==> Serials(All(n)[i], s.count)
  {
    hide Serials, Less;
    var n := Put(s, who, chain);
    LessStep(s, who, chain);
    forall j | 0 <= j < |All(n)| ensures Serials(All(n)[j], s.count) {
      assert Less(All(s)[j], All(n)[j]);
      LessSerials(All(s)[j], All(n)[j], s.count);
    }
  }

  lemma GotOk(s: System, e: Event, pick: Pick)
    requires Inv(s) && Enabled(s, e) && e.Got?
    ensures Inv(Next(s, e, pick))
  {
    hide TableOk, Backed, Changed, Serials, Spent, Get, NoOrphans, Served, LogOk, PendingOk;
    var c := Chain(s, e.who);
    var (chain, hit) := Get(c, e.oid, e.far, s.dead, e.supports);
    ChainIsOk(s, e.who);
    GetKeeps(c, e.oid, e.far, s.dead, e.supports);
    TakingOk(s, e.who, chain);
    if hit.Some? {
      var n := Put(s, e.who, chain);
      HitIsNew(s, e.who, chain, hit.value);
      LoggedOk(n, hit.value, n.todo);
    }
  }

  lemma LogFrame(s: System, log: seq<Answer>, todo: multiset<Pending>)
    ensures var n := s.(log := log, todo := todo); All(n) == All(s) && (NoOrphans(s) ==> NoOrphans(n))
  {
  }

  /** If the entry was served before, for single use, its revocation is still to come. */
  ghost predicate Repeats(s: System, h: Hit) {
    forall b :: 0 <= b < |s.log| && s.log[b].hit.single && SameEntry(s.log[b].hit, h) ==> InFlight(s, h)
  }

  /** One more answer, and perhaps its revocation to come. */
  lemma LoggedOk(s: System, h: Hit, todo: multiset<Pending>)
    requires Inv(s) && Repeats(s, h) && h.serial < s.count && s.todo <= todo
    requires var n := Logged(s, h).(todo := todo);
             (Gone(s, h) || InFlight(n, h)) && forall p <- todo :: p in s.todo || PendingOk(n, p)
    ensures Inv(Logged(s, h).(todo := todo))
  {
    hide TableOk, Backed, Serials, Spent, NoOrphans, Gone, AnswerOk, PendingOk, Repeats;
    var n := Logged(s, h).(todo := todo);
    LogFrame(s, n.log, n.todo);
    forall b | 0 <= b < |n.log| ensures AnswerOk(n, b) {
      if b < |s.log| {
        OldAnswer(s, n, b);
      } else {
        NewAnswer(s, n, h);
      }
    }
    forall p | p in n.todo ensures PendingOk(n, p) {
      if p in s.todo { OldPending(s, n, p); }
    }
  }

  lemma OldAnswer(s: System, n: System, b: nat)
    requires b < |s.log| && AnswerOk(s, b) && s.log <= n.log && s.todo <= n.todo
    requires All(n) == All(s) && n.count == s.count
    ensures AnswerOk(n, b)
  {
    hide Spent;
    var h := s.log[b].hit;
    if InFlight(s, h) {
      var p :| p in s.todo && SameEntry(p.hit, h);
      assert p in n.todo;
    }
  }

  lemma OldPending(s: System, n: System, p: Pending)
    requires PendingOk(s, p) && s.log <= n.log && n.clients == s.clients && n.up == s.up && n.count == s.count
    ensures PendingOk(n, p)
  {
    var a :| 0 <= a < |s.log| && s.log[a].hit.single && SameEntry(s.log[a].hit, p.hit);
    assert n.log[a] == s.log[a];
  }

  lemma NewAnswer(s: System, n: System, h: Hit)
    requires (forall p <- s.todo :: PendingOk(s, p)) && Repeats(s, h) && h.serial < s.count && n.count == s.count
    requires n.log == s.log + [Answer(h, InFlight(s, h))] && All(n) == All(s) && (Gone(s, h) || InFlight(n, h))
    ensures AnswerOk(n, |s.log|)
  {
    hide Spent;
    if InFlight(s, h) {
      var p :| p in s.todo && SameEntry(p.hit, h);
      assert PendingOk(s, p);
      var a :| 0 <= a < |s.log| && s.log[a].hit.single && SameEntry(s.log[a].hit, p.hit);
      assert n.log[a] == s.log[a];
    }
    if Before(n.log, |s.log|) {
      var a :| 0 <= a < |s.log| && n.log[a].hit.single && SameEntry(n.log[a].hit, n.log[|s.log|].hit);
      assert s.log[a] == n.log[a];
    }
  }

  /** An entry that stands in its table was not served before as one for single use, unless its
      revocation is still to come. */
  lemma StandingRepeats(s: System, j: nat, c: nat, h: Hit)
    requires LogOk(s) && j < |All(s)| && c in All(s)[j].byCookie
    requires h.table == All(s)[j].name && h.serial == All(s)[j].byCookie[c].serial
    ensures Repeats(s, h)
  {
    forall b | 0 <= b < |s.log| && s.log[b].hit.single && SameEntry(s.log[b].hit, h) ensures InFlight(s, h) {
      assert AnswerOk(s, b);
      StandsHere(All(s)[j], c, s.log[b].hit);
    }
  }

  lemma StandsHere(t: Table, c: nat, h: Hit)
    requires c in t.byCookie && h.single && h.table == t.name && h.serial == t.byCookie[c].serial
    ensures !Spent(t, h)
  {
  }

  /** The entry of the hit was in its table; if it is single-use it has left. */
  lemma HitIsNew(s: System, who: Who, chain: seq<Table>, hit: Hit)
    requires Inv(s) && WhoOk(s, who) && AllLess(Chain(s, who), chain) && Served(Chain(s, who), chain, hit, s.dead)
    ensures hit.serial < s.count
    ensures Repeats(Put(s, who, chain), hit) && Gone(Put(s, who, chain), hit)
  {
    hide TableOk, Backed, NoOrphans, LogOk, PendingOk;
    var n, c := Put(s, who, chain), Chain(s, who);
    LessStep(s, who, chain);
    var i, k :| 0 <= i < |c| && ServedAt(c[i], chain[i], k, hit, s.dead);
    var p := Place(s, who, i);
    assert All(s)[p] == c[i] && All(n)[p] == chain[i];
    assert Serials(All(s)[p], s.count);
    StandingRepeats(s, p, k, hit);
    assert forall h :: InFlight(n, h) == InFlight(s, h);
    forall j | 0 <= j < |All(s)| ensures Spent(All(n)[j], hit) {
      assert Less(All(s)[j], All(n)[j]);
      if j != p {
        assert All(s)[j].name != All(s)[p].name;
      }
    }
  }

  lemma LookedOk(s: System, e: Event, pick: Pick)
    requires Inv(s) && Enabled(s, e) && e.Looked?
    ensures Inv(Next(s, e, pick))
  {
    hide TableOk, Backed, NoOrphans, LogOk, PendingOk, Inv, Has, Look, Repeats, Gone, Serials;
    var look := Look(Chain(s, e.who), e.oid, e.far, s.dead, e.supports);
    if look.Some? {
      var h := HitOf(Chain(s, e.who)[0], look.value);
      LookedHit(s, e.who, look.value);
      LoggedOk(s, h, if h.single then s.todo + multiset{Pending(Unsourced(e.who), look.value, h)} else s.todo);
    }
  }

  lemma LookedHit(s: System, who: Who, c: nat)
    requires Inv(s) && WhoOk(s, who) && c in Chain(s, who)[0].byCookie
    ensures
      var h := HitOf(Chain(s, who)[0], c);
      var p := Pending(Unsourced(who), c, h);
      var n := Logged(s, h).(todo := s.todo + multiset{p});
      h.serial < s.count && Repeats(s, h)
      && if h.single then PendingOk(n, p) && InFlight(n, h) else Gone(s, h)
  {
    hide Backed, NoOrphans, LogOk, PendingOk, Has;
    var h := HitOf(Chain(s, who)[0], c);
    FirstTable(s, who);
    StandingRepeats(s, Place(s, who, 0), c, h);
    assert Serials(All(s)[Place(s, who, 0)], s.count);
    if h.single {
      var p := Pending(Unsourced(who), c, h);
      var n := Logged(s, h).(todo := s.todo + multiset{p});
      assert p in n.todo && SameEntry(p.hit, h);
      NewPending(s, n, who, c, p);
    }
  }

  lemma NewPending(s: System, n: System, who: Who, c: nat, p: Pending)
    requires Inv(s) && WhoOk(s, who) && c in Chain(s, who)[0].byCookie
    requires p.who == Unsourced(who) && p.cookie == c && p.hit == HitOf(Chain(s, who)[0], c) && p.hit.single
    requires n.clients == s.clients && n.up == s.up && n.count == s.count
    requires n.log != [] && n.log[|n.log| - 1].hit == p.hit
    ensures PendingOk(n, p)
  {
    hide Backed, NoOrphans, LogOk, Has, Indexed, Compatible;
    FirstTable(s, who);
    assert Serials(All(s)[Place(s, who, 0)], s.count);
    forall t | t in All(n) ensures t.name != 0 {
      var j :| 0 <= j < |All(n)| && All(n)[j] == t;
      assert TableOk(All(s)[j], s.dead);
    }
    assert n.log[|n.log| - 1].hit.single && SameEntry(n.log[|n.log| - 1].hit, p.hit);
  }

  lemma PoppedOk(s: System, e: Event, pick: Pick)
    requires Inv(s) && Enabled(s, e) && e.Popped?
    ensures Inv(Next(s, e, pick))
  {
    hide TableOk, Backed, NoOrphans, LogOk, PendingOk, Spent, Serials;
    var p := e.p;
    var n := Next(s, Revoked(p.who, p.cookie), pick);
    RevokedOk(s, Revoked(p.who, p.cookie), pick);
    PoppedIsGone(s, p, pick);
    LogFrame(n, n.log, s.todo - multiset{p});
    var r := n.(todo := s.todo - multiset{p});
    assert LogOk(r) by { PoppedAnswers(n, r, p); }
    forall q | q in r.todo ensures PendingOk(r, q) {
      assert q in n.todo;
      OldPending(n, r, q);
    }
  }

  lemma PoppedAnswers(n: System, r: System, p: Pending)
    requires LogOk(n) && r == n.(todo := n.todo - multiset{p}) && Gone(n, p.hit) && p.hit.single
    ensures LogOk(r)
  {
    assert All(r) == All(n);
    forall b | 0 <= b < |r.log| ensures AnswerOk(r, b) {
      var h := r.log[b].hit;
      assert AnswerOk(n, b);
      if !Gone(n, h) {
        var q :| q in n.todo && SameEntry(q.hit, h);
        if q == p { SameGone(n, p.hit, h); } else { assert q in r.todo; }
      }
    }
  }

  lemma SameGone(s: System, g: Hit, h: Hit)
    requires Gone(s, g) && g.single && SameEntry(g, h)
    ensures Gone(s, h)
  {
    forall i | 0 <= i < |All(s)| ensures Spent(All(s)[i], h) {
      assert Spent(All(s)[i], g);
    }
  }

  lemma FirstRevoked(chain: seq<Table>, cookie: nat)
    requires chain != []
    ensures cookie !in Revoke(chain, cookie, 0)[0].byCookie
  {
  }

  lemma SpentNow(was: Table, now: Table, cookie: nat, h: Hit)
    requires Less(was, now) && cookie !in now.byCookie
    requires was.name == h.table ==> OnlyUnder(was, h.serial, cookie)
    ensures Spent(now, h)
  {
  }

  lemma SpentElsewhere(was: Table, now: Table, h: Hit)
    requires Less(was, now) && was.name != h.table
    ensures Spent(now, h)
  {
  }

  /** The revocation takes away the entry it is for, if that still stands. */
  lemma PoppedIsGone(s: System, p: Pending, pick: Pick)
    requires Inv(s) && p in s.todo && WhoOk(s, p.who)
    ensures p.hit.single && Gone(Next(s, Revoked(p.who, p.cookie), pick), p.hit)
  {
    assert PendingOk(s, p);
    var now := Revoke(Chain(s, p.who), p.cookie, SourceOf(p.who));
    ChainIsOk(s, p.who);
    RevokeKeeps(Chain(s, p.who), p.cookie, SourceOf(p.who), s.dead);
    FirstRevoked(Chain(s, p.who), p.cookie);
    assert Shape(s);
    hide Inv, AllOk, Linked, Spent, Less, Revoke;
    GoneAfter(s, p.who, now, p.cookie, p.hit);
  }

  lemma GoneAfter(s: System, who: Who, now: seq<Table>, cookie: nat, h: Hit)
    requires WhoOk(s, who) && Shape(s) && AllLess(Chain(s, who), now) && Chain(s, who)[0].name == h.table
    requires cookie !in now[0].byCookie
    requires OnlyUnder(Chain(s, who)[0], h.serial, cookie)
    ensures Gone(Put(s, who, now), h)
  {
    hide Spent, Less;
    LessStep(s, who, now);
    FirstTable(s, who);
    var n, f := Put(s, who, now), Place(s, who, 0);
    assert All(n)[f] == now[0];
    forall j | 0 <= j < |All(n)| ensures Spent(All(n)[j], h) {
      assert Less(All(s)[j], All(n)[j]);
      if j == f {
        SpentNow(All(s)[f], All(n)[f], cookie, h);
      } else {
        assert All(s)[j].name != All(s)[f].name;
        SpentElsewhere(All(s)[j], All(n)[j], h);
      }
    }
  }

  lemma RevokedOk(s: System, e: Event, pick: Pick)
    requires Inv(s) && Enabled(s, e) && e.Revoked?
    ensures Inv(Next(s, e, pick))
  {
    hide Inv, Revoke;
    var c := Chain(s, e.who);
    ChainIsOk(s, e.who);
    RevokeKeeps(c, e.cookie, SourceOf(e.who), s.dead);
    TakingOk(s, e.who, Revoke(c, e.cookie, SourceOf(e.who)));
  }

  lemma DiedOk(s: System, e: Event, pick: Pick)
    requires Inv(s) && e.Died?
    ensures Inv(Next(s, e, pick))
  {
    hide Backed, Serials, Spent, AnswerOk, PendingOk;
    var n := Next(s, e, pick);
    forall j | 0 <= j < |All(n)| ensures TableOk(All(n)[j], n.dead) {
      assert TableOk(All(s)[j], s.dead);
    }
    forall b | 0 <= b < |n.log| ensures AnswerOk(n, b) {
      OldAnswer(s, n, b);
    }
    forall p | p in n.todo ensures PendingOk(n, p) {
      OldPending(s, n, p);
    }
  }

  lemma {:induction false} RunKeeps(s: System, events: seq<Event>, pick: Pick)
    requires Inv(s) && Legal(s, events, pick) && PickOk(pick)
    ensures Inv(Run(s, events, pick))
    decreases |events|
  {
    hide Inv, PickOk, Next;
    if events != [] {
      var e := events[0];
      match e {
        case Registered(_, _, _, _) => RegisteredOk(s, e, pick);
        case Got(_, _, _, _) => GotOk(s, e, pick);
        case Looked(_, _, _, _) => LookedOk(s, e, pick);
        case Popped(_) => PoppedOk(s, e, pick);
        case Revoked(_, _) => RevokedOk(s, e, pick);
        case Died(_) => DiedOk(s, e, pick);
      }
      RunKeeps(Next(s, e, pick), events[1..], pick);
    }
  }

  /** In every reachable state: each table's two indexes hold the same set, each cookie once
      under its own oid; live entries of one oid differ in flags and at most one of them lacks
      `MultipleRegistration`; and no table has left an entry upstream that it does not hold. */
  lemma EveryState(s: System, events: seq<Event>, pick: Pick)
    requires Fresh(s) && Legal(s, events, pick) && PickOk(pick)
    ensures var n := Run(s, events, pick);
            && (forall i :: 0 <= i < |All(n)| ==> Indexed(All(n)[i]) && Compatible(All(n)[i], n.dead))
            && NoOrphans(n)
  {
    FreshOk(s);
    RunKeeps(s, events, pick);
    var n := Run(s, events, pick);
    forall i | 0 <= i < |All(n)| ensures Indexed(All(n)[i]) && Compatible(All(n)[i], n.dead) {
      assert TableOk(All(n)[i], n.dead);
    }
  }

  /** Over every run, however calls come between each other: a single-use entry of a table is
      served again exactly while its revocation after an earlier answer is still to come. */
  lemma ServedAgain(s: System, events: seq<Event>, pick: Pick, b: nat)
    requires Fresh(s) && Legal(s, events, pick) && PickOk(pick) && b < |Run(s, events, pick).log|
    ensures var log := Run(s, events, pick).log; log[b].again <==> Before(log, b)
  {
    hide PickOk;
    FreshOk(s);
    RunKeeps(s, events, pick);
    assert AnswerOk(Run(s, events, pick), b);
  }

  /** If nothing comes between the steps of any call, it is returned by at most one `GetObject`
      of the whole run. */
  lemma SingleUseOnce(s: System, events: seq<Event>, pick: Pick, a: nat, b: nat)
    requires Fresh(s) && Legal(s, events, pick) && PickOk(pick) && forall e <- events :: !e.Looked?
    requires var log := Run(s, events, pick).log; a < b < |log| && log[a].hit.single
    ensures var log := Run(s, events, pick).log; !SameEntry(log[a].hit, log[b].hit)
  {
    hide PickOk;
    ServedAgain(s, events, pick, b);
    NothingInFlight(s, events, pick);
  }

  /** Nothing is still to be revoked, and nothing was when something was served. */
  ghost predicate AtOnce(s: System) {
    s.todo == multiset{} && forall b :: 0 <= b < |s.log| ==> !s.log[b].again
  }

  lemma {:induction false} NothingInFlight(s: System, events: seq<Event>, pick: Pick)
    requires Legal(s, events, pick) && AtOnce(s) && forall e <- events :: !e.Looked?
    ensures AtOnce(Run(s, events, pick))
    decreases |events|
  {
    hide Next, AtOnce;
    if events != [] {
      assert events[0] in events;
      AtOnceStep(s, events[0], pick);
      NothingInFlight(Next(s, events[0], pick), events[1..], pick);
    }
  }

  lemma AtOnceStep(s: System, e: Event, pick: Pick)
    requires Enabled(s, e) && AtOnce(s) && !e.Looked?
    ensures AtOnce(Next(s, e, pick))
  {
    hide Register, Get, Revoke;
  }

  /** A run in which two calls are served the same single-use entry. */
  lemma ServedTwice(s: System, pick: Pick, obj: Object) returns (events: seq<Event>)
    requires Fresh(s) && PickOk(pick) && |s.clients| == 1 && s.dead == {}
    ensures Legal(s, events, pick)
    ensures var log := Run(s, events, pick).log;
            |log| == 2 && log[0].hit.single && log[0].hit == log[1].hit && log[1].again
  {
    hide Next, InFlight, HitOf;
    var e0 := Registered(Client(0), "x", obj, PROCESS_SCOPE | SINGLE_USE);
    var e1 := Looked(Client(0), "x", _ => false, {obj});
    events := [e0] + ([e1] + ([e1] + []));
    var s1 := Next(s, e0, pick);
    var c := EnterFirst(s, s1, e0, pick);
    LookFirst(s1, e1, pick, c);
    var s2 := Next(s1, e1, pick);
    LookFirst(s2, e1, pick, c);
    RunFirst(s2, e1, [], pick);
    RunFirst(s1, e1, [e1] + [], pick);
    RunFirst(s, e0, [e1] + ([e1] + []), pick);
  }

  lemma RunFirst(s: System, e: Event, rest: seq<Event>, pick: Pick)
    requires Enabled(s, e) && Legal(Next(s, e, pick), rest, pick)
    ensures Legal(s, [e] + rest, pick) && Run(s, [e] + rest, pick) == Run(Next(s, e, pick), rest, pick)
  {
    hide Next, Enabled;
    assert ([e] + rest)[1..] == rest;
  }

  lemma EnterFirst(s: System, s1: System, e: Event, pick: Pick) returns (c: nat)
    requires Fresh(s) && PickOk(pick) && |s.clients| == 1 && s.dead == {}
    requires e.Registered? && e.who == Client(0) && e.flags == PROCESS_SCOPE | SINGLE_USE && s1 == Next(s, e, pick)
    ensures |s1.clients| == 1 && s1.log == [] && s1.todo == multiset{} && s1.dead == {}
    ensures Only(s1.clients[0], e.oid, c) && s1.clients[0].byCookie[c].obj == e.obj
  {
    var t := s.clients[0];
    assert All(s)[0] == t;
    c := pick({});
    assert t.byCookie.Keys == {};
  }

  /** The only entry of a process's own table, for single use. */
  ghost predicate Only(t: Table, oid: Oid, c: nat) {
    && t.local && CookiesOf(t, oid) == [c] && c in t.byCookie && t.byCookie[c].flags == PROCESS_SCOPE | SINGLE_USE
  }

  lemma LookFirst(s: System, e: Event, pick: Pick, c: nat)
    requires |s.clients| == 1 && s.dead == {} && e.Looked? && e.who == Client(0)
    requires Only(s.clients[0], e.oid, c) && s.clients[0].byCookie[c].obj in e.supports
    ensures
      var h := HitOf(s.clients[0], c);
      var n := Next(s, e, pick);
      h.single && InFlight(n, h)
      && n == s.(log := s.log + [Answer(h, InFlight(s, h))], todo := s.todo + multiset{Pending(Client(0), c, h)})
  {
    var t := s.clients[0];
    var f := Scan(t, [c], Search(e.far(t.name), |Chain(s, e.who)| == 1), s.dead);
    assert Scan(t, [], Search(e.far(t.name), |Chain(s, e.who)| == 1), s.dead) == Found([], None);
    assert [c][..|[c]| - 1] == [];
    assert f.hit == Some(c);
    var h := HitOf(t, c);
    var n := Next(s, e, pick);
    assert Pending(Client(0), c, h) in n.todo && SameEntry(h, h);
  }

  // ---- An upstream entry that is lost ----

  /** The entry of `obj` in its process's own table names a cookie that is free upstream. */
  ghost predicate Lost(s: System, obj: Object) {
    |s.clients| == 1 && |s.up| == 1
    && exists c <- s.clients[0].byCookie ::
         var info := s.clients[0].byCookie[c];
         info.obj == obj && info.rotCookie != 0 && info.rotCookie !in s.up[0].byCookie
  }

  /** A run in which a registration succeeds, and yet the table upstream holds no entry for it:
      an earlier entry has died and was revoked upstream, so that its cookie was free again. */
  lemma EntryLost(s: System, pick: Pick, first: Object, second: Object) returns (events: seq<Event>)
    requires Fresh(s) && PickOk(pick) && |s.clients| == 1 && |s.up| == 1 && s.dead == {} && first != second
    ensures Legal(s, events, pick) && Lost(Run(s, events, pick), second) && second !in Run(s, events, pick).dead
  {
    hide Next, Register, Revoke;
    var k := pick({});
    var e0, e1 := Registered(Client(0), "x", first, USER_SCOPE), Died(first);
    var e2, e3 := Revoked(At(0, 0), k), Registered(Client(0), "x", second, USER_SCOPE);
    events := [e0] + ([e1] + ([e2] + ([e3] + [])));
    var s1 := Next(s, e0, pick);
    RegisterFirst(s, s1, e0, k, pick);
    var s2 := Next(s1, e1, pick);
    JustDied(s1, s2, first, pick);
    var s3 := Next(s2, e2, pick);
    JustRevoked(s2, s3, k, pick);
    var s4 := Next(s3, e3, pick);
    RegisterAgain(s3, s4, e3, k, pick);
    RunFirst(s3, e3, [], pick);
    RunFirst(s2, e2, [e3] + [], pick);
    RunFirst(s1, e1, [e2] + ([e3] + []), pick);
    RunFirst(s, e0, [e1] + ([e2] + ([e3] + [])), pick);
  }

  predicate Empty(t: Table) {
    t.byCookie == map[] && CookiesOf(t, "x") == []
  }

  /** The only entry of the table, for "x". */
  predicate Single(t: Table, c: nat, obj: Object, rotCookie: nat) {
    t.byCookie.Keys == {c} && CookiesOf(t, "x") == [c]
    && t.byCookie[c].oid == "x" && t.byCookie[c].obj == obj && t.byCookie[c].rotCookie == rotCookie
  }

  /** One process above one upstream table. */
  predicate Two(s: System) {
    |s.clients| == 1 && |s.up| == 1 && s.clients[0].local && !s.up[0].local && s.clients[0].name != 0 && s.up[0].name != 0
  }

  lemma EnterEmpty(chain: seq<Table>, source: nat, q: Request, rotCookie: nat, dead: set<Object>, pick: Pick)
    requires chain != [] && Empty(chain[0]) && q.oid == "x"
    ensures
      var (r, cookie) := Enter(chain, source, q, rotCookie, dead, pick);
      cookie == Some(pick({})) && r[1..] == chain[1..] && Single(r[0], pick({}), q.obj, rotCookie)
      && r[0].local == chain[0].local && r[0].name == chain[0].name
      && (!chain[0].local ==> r[0].byCookie[pick({})].source == source)
  {
    assert chain[0].byCookie.Keys == {};
  }

  lemma UserScopeGoesUp(t: Table)
    ensures GoesUp(t, USER_SCOPE) <==> t.local
    ensures USER_SCOPE & 0xF != 0
  {
    GoesUpIs(t, USER_SCOPE);
  }

  /** A registration by the process: first upstream, then in its own table. */
  lemma RegisterTwo(t: Table, u: Table, q: Request, dead: set<Object>, pick: Pick)
    requires t.local && !u.local && Empty(u) && q.oid == "x" && q.flags == USER_SCOPE
    ensures
      var (up, k) := Enter([u], t.name, q, 0, dead, pick);
      k == Some(pick({})) && |up| == 1 && Single(up[0], pick({}), q.obj, 0)
      && up[0].local == u.local && up[0].name == u.name && up[0].byCookie[pick({})].source == t.name
      && Register([t, u], 0, q, dead, pick) == Enter([t] + up, 0, q, pick({}), dead, pick)
  {
    UserScopeGoesUp(t);
    UserScopeGoesUp(u);
    EnterEmpty([u], t.name, q, 0, dead, pick);
    assert [t, u][1..] == [u];
    hide GoesUp, Enter;
  }

  lemma RegisterFirst(s: System, s1: System, e: Event, k: nat, pick: Pick)
    requires Fresh(s) && PickOk(pick) && |s.clients| == 1 && |s.up| == 1 && k == pick({})
    requires e.Registered? && e.who == Client(0) && e.oid == "x" && e.flags == USER_SCOPE && s1 == Next(s, e, pick)
    ensures Two(s1) && s1.dead == s.dead && Single(s1.clients[0], k, e.obj, k) && Single(s1.up[0], k, e.obj, 0)
  {
    var t, u := s.clients[0], s.up[0];
    assert All(s)[0] == t && All(s)[1] == u;
    var q := Request("x", e.obj, e.flags, s.count);
    RegisterTwo(t, u, q, s.dead, pick);
    var up := Enter([u], t.name, q, 0, s.dead, pick).0;
    EnterEmpty([t] + up, 0, q, k, s.dead, pick);
    hide Enter, Register, Single;
    assert Chain(s, e.who) == [t, u];
  }

  lemma JustDied(s: System, s1: System, obj: Object, pick: Pick)
    requires s1 == Next(s, Died(obj), pick)
    ensures s1 == s.(dead := s.dead + {obj})
  {
  }

  lemma RemoveOnly(k: nat)
    ensures Remove([k], k) == []
  {
    assert [k][1..] == [];
  }

  lemma JustRevoked(s: System, s1: System, k: nat, pick: Pick)
    requires Two(s) && k in s.up[0].byCookie && Single(s.up[0], k, s.up[0].byCookie[k].obj, 0)
    requires Enabled(s, Revoked(At(0, 0), k)) && s1 == Next(s, Revoked(At(0, 0), k), pick)
    ensures Two(s1) && s1.clients == s.clients && s1.dead == s.dead && Empty(s1.up[0])
  {
    var r := Removed(s.up[0], k);
    RemoveOnly(k);
    assert Chain(s, At(0, 0)) == s.up;
    assert Revoke(s.up, k, 0) == [r];
    assert s1.up == [r];
  }

  lemma RegisterAgain(s: System, s1: System, e: Event, k: nat, pick: Pick)
    requires Two(s) && PickOk(pick) && k == pick({}) && Empty(s.up[0])
    requires k in s.clients[0].byCookie && Single(s.clients[0], k, s.clients[0].byCookie[k].obj, k)
    requires s.clients[0].byCookie[k].obj in s.dead
    requires e.Registered? && e.who == Client(0) && e.oid == "x" && e.flags == USER_SCOPE && s1 == Next(s, e, pick)
    ensures Lost(s1, e.obj) && s1.dead == s.dead
  {
    var t, u := s.clients[0], s.up[0];
    var q := Request("x", e.obj, e.flags, s.count);
    RegisterTwo(t, u, q, s.dead, pick);
    var up := Enter([u], t.name, q, 0, s.dead, pick).0;
    assert Chain(s, e.who) == [t, u];
    EnterStale(t, up[0], q, k, s.dead, pick);
    assert [t] + up == [t, up[0]];
    hide Enter, Register, Single;
    var (r, cookie) := Register([t, u], 0, q, s.dead, pick);
    assert s1.clients == [r[0]] && s1.up == [r[1]];
    assert s1.clients[0].byCookie[cookie.value].obj == e.obj;
  }

  lemma CheckOne(t: Table, k: nat, flags: Flags, dead: set<Object>)
    requires k in t.byCookie && t.byCookie[k].obj in dead
    ensures Check(t, [k], flags, dead) == Some([k])
  {
    var cookies := [k];
    assert cookies[..|cookies| - 1] == [];
    assert Check(t, cookies[..|cookies| - 1], flags, dead) == Some([]);
    assert [] + [k] == [k];
  }

  lemma RevokeOne(chain: seq<Table>, k: nat)
    ensures RevokeAll(chain, [k]) == Revoke(chain, k, 0)
  {
    hide Revoke;
    assert [k][..|[k]| - 1] == [];
  }

  lemma EnterStale(t: Table, u: Table, q: Request, k: nat, dead: set<Object>, pick: Pick)
    requires t.local && !u.local && PickOk(pick) && t.name != 0 && k in t.byCookie && t.byCookie[k].obj in dead
    requires Single(t, k, t.byCookie[k].obj, k) && k in u.byCookie && Single(u, k, u.byCookie[k].obj, 0) && q.oid == "x"
    requires u.byCookie[k].source == t.name && k != 0
    ensures
      var (r, cookie) := Enter([t, u], 0, q, k, dead, pick);
      |r| == 2 && cookie.Some? && cookie.value in r[0].byCookie
      && r[0].byCookie[cookie.value].obj == q.obj && r[0].byCookie[cookie.value].rotCookie == k && k !in r[1].byCookie
  {
    CheckOne(t, k, q.flags, dead);
    assert |t.byCookie.Keys| == |t.byCookie| == 1;
    var c := pick(t.byCookie.Keys);
    var n := Inserted(t, c, Info(q.oid, q.obj, q.flags, k, 0, q.serial));
    var r := [Removed(n, k), Removed(u, k)];
    assert [n, u][1..] == [u];
    assert Revoke([u], k, t.name) == [Removed(u, k)];
    assert Revoke([n, u], k, 0) == r;
    RevokeOne([n, u], k);
    assert [n] + [t, u][1..] == [n, u];
  }
}
