/** Distributed references over one channel: the stub tables and marshal counts of one end
    (StdObjectManager.cpp, WireStub.cpp) and the proxy table of the other (WireProxy.cpp). */
module RemoteRefs {
  import opened Options

  /** Objects are named by their IObject pointer. */
  type Object = nat
  type Id = nat

  const MAX_ID: nat := 0xFFFF_FFFF

  datatype Stub = Stub(obj: Object, count: nat)

  /** `m_mapStubObjs` and `m_mapStubIds`. */
  datatype Tables = Tables(objs: map<Object, Id>, stubs: map<Id, Stub>)

  /** The two tables are each other's inverse, and every stub is referenced. */
  ghost predicate TablesOk(t: Tables) {
    && (forall o <- t.objs :: t.objs[o] in t.stubs && t.stubs[t.objs[o]].obj == o)
    && (forall i <- t.stubs :: 1 <= i <= MAX_ID && t.stubs[i].obj in t.objs && t.objs[t.stubs[i].obj] == i)
    && (forall i <- t.stubs :: t.stubs[i].count > 0)
  }

  /** One more marshalled reference to `obj`; `spare` is the id a new stub gets. */
  function Marshalled(t: Tables, obj: Object, spare: Id): Tables
    requires obj in t.objs ==> t.objs[obj] in t.stubs
  {
    if obj in t.objs then
      var i := t.objs[obj];
      t.(stubs := t.stubs[i := t.stubs[i].(count := t.stubs[i].count + 1)])
    else Tables(t.objs[obj := spare], t.stubs[spare := Stub(obj, 1)])
  }

  function Removed(t: Tables, id: Id): Tables {
    if id in t.stubs then Tables(map o | o in t.objs && t.objs[o] != id :: t.objs[o], t.stubs - {id}) else t
  }

  /** One reference given back. */
  function Unmarked(t: Tables, id: Id): Tables
    requires id in t.stubs && t.stubs[id].count > 0
  {
    if t.stubs[id].count == 1 then Removed(t, id)
    else t.(stubs := t.stubs[id := t.stubs[id].(count := t.stubs[id].count - 1)])
  }

  // ---- Both ends and the channel ----

  /** A marshalled reference in flight, and (for stating properties) the object it is for. */
  datatype Ref = Ref(id: Id, obj: Object)

  datatype System = System(
    tables: Tables,
    proxies: map<Id, Object>,    // the proxy table, with the object each proxy was made for
    dying: set<Id>,              // proxies that have sent their release and are still in the table
    refs: multiset<Ref>,         // marshalled, not yet unmarshalled
    releases: multiset<Id>,      // sent by a final release, not yet delivered
    merged: map<Id, nat>)        // references of a stub that met an existing proxy

  const Start := System(Tables(map[], map[]), map[], {}, multiset{}, multiset{}, map[])

  datatype Event =
    | Marshal(obj: Object, spare: Id)
    | Withdraw(ref: Ref)          // ReleaseMarshalData after a failed send
    | Unmarshal(ref: Ref)
    | FinalRelease(id: Id)        // the last local reference goes: the release is sent first
    | RemoveProxy(id: Id)         // and then the proxy leaves its table
    | DeliverRelease(id: Id)

  predicate Live(s: System, id: Id) {
    id in s.proxies && id !in s.dying
  }

  predicate SameProxies(s: System, s': System) {
    s'.proxies == s.proxies && s'.dying == s.dying
  }

  predicate Possible(s: System, e: Event) {
    match e
    case Marshal(obj, spare) => obj in s.tables.objs || (1 <= spare <= MAX_ID && spare !in s.tables.stubs)
    case Withdraw(ref) => ref in s.refs
    case Unmarshal(ref) => ref in s.refs
    case FinalRelease(id) => Live(s, id)
    case RemoveProxy(id) => id in s.dying
    case DeliverRelease(id) => id in s.releases
  }

  /** Everything on the way or alive names a stub of the right object. */
  ghost predicate Resolves(s: System) {
    && (forall r <- s.refs :: r.id in s.tables.stubs && s.tables.stubs[r.id].obj == r.obj)
    && (forall i <- s.proxies :: i !in s.dying ==> i in s.tables.stubs && s.tables.stubs[i].obj == s.proxies[i])
    && (forall i <- s.releases :: i in s.tables.stubs)
  }

  /** In-flight references, in-flight releases and live proxies of stub `i`. */
  ghost function Uses(s: System, i: Id): nat
    requires i in s.tables.stubs
  {
    s.refs[Ref(i, s.tables.stubs[i].obj)] + s.releases[i] + if Live(s, i) then 1 else 0
  }

  /** The marshal count is the number of uses plus the references that met a proxy. */
  ghost predicate Book(s: System, i: Id)
    requires i in s.tables.stubs
  {
    i in s.merged && s.tables.stubs[i].count == Uses(s, i) + s.merged[i]
  }

  ghost predicate Inv(s: System) {
    && TablesOk(s.tables) && Resolves(s)
    && (forall i <- s.dying :: i in s.proxies)
    && (forall i: Id :: i in s.merged <==> i in s.tables.stubs)
    && (forall i <- s.tables.stubs :: Book(s, i))
  }

  ghost function GiveBack(s: System, id: Id): System
    requires id in s.tables.stubs && s.tables.stubs[id].count > 0
  {
    var t := Unmarked(s.tables, id);
    s.(tables := t, merged := map i | i in s.merged && i in t.stubs :: s.merged[i])
  }

  ghost function AfterMarshal(s: System, obj: Object, spare: Id): System
    requires Inv(s)
  {
    var t := Marshalled(s.tables, obj, spare);
    s.(tables := t, refs := s.refs + multiset{Ref(t.objs[obj], obj)},
       merged := if obj in s.tables.objs then s.merged else s.merged[spare := 0])
  }

  ghost function AfterWithdraw(s: System, ref: Ref): System
    requires Inv(s)
  {
    if ref.obj in s.tables.objs then GiveBack(s.(refs := s.refs - multiset{ref}), s.tables.objs[ref.obj]) else s
  }

  ghost function AfterUnmarshal(s: System, ref: Ref): System {
    var s1 := s.(refs := s.refs - multiset{ref});
    if ref.id in s.proxies then
      s1.(merged := s.merged[ref.id := (if ref.id in s.merged then s.merged[ref.id] else 0) + 1])
    else s1.(proxies := s.proxies[ref.id := ref.obj])
  }

  ghost function AfterFinalRelease(s: System, id: Id): System {
    s.(dying := s.dying + {id}, releases := s.releases + multiset{id})
  }

  ghost function AfterRemove(s: System, id: Id): System {
    s.(dying := s.dying - {id}, proxies := s.proxies - {id})
  }

  /** A call on an id without a stub only raises an exception. */
  ghost function AfterRelease(s: System, id: Id): System
    requires Inv(s)
  {
    var s1 := s.(releases := s.releases - multiset{id});
    if id in s.tables.stubs then GiveBack(s1, id) else s1
  }

  ghost function Next(s: System, e: Event): System
    requires Inv(s)
  {
    if !Possible(s, e) then s else
    match e
    case Marshal(obj, spare) => AfterMarshal(s, obj, spare)
    case Withdraw(ref) => AfterWithdraw(s, ref)
    case Unmarshal(ref) => AfterUnmarshal(s, ref)
    case FinalRelease(id) => AfterFinalRelease(s, id)
    case RemoveProxy(id) => AfterRemove(s, id)
    case DeliverRelease(id) => AfterRelease(s, id)
  }

  lemma MarshalledOk(t: Tables, obj: Object, spare: Id)
    requires TablesOk(t) && (obj in t.objs || (1 <= spare <= MAX_ID && spare !in t.stubs))
    ensures
      var t' := Marshalled(t, obj, spare);
      var id := t'.objs[obj];
      TablesOk(t') && id == (if obj in t.objs then t.objs[obj] else spare) && id in t'.stubs && t'.stubs[id].obj == obj
      && (forall i: Id :: i in t'.stubs <==> i in t.stubs || i == id) && (obj in t.objs <==> id in t.stubs)
      && (forall i <- t.stubs :: t'.stubs[i].obj == t.stubs[i].obj)
      && (forall i <- t.stubs :: t'.stubs[i].count == t.stubs[i].count + if i == id then 1 else 0)
      && (obj !in t.objs ==> t'.stubs[id].count == 1)
  {
  }

  lemma UnmarkedOk(t: Tables, id: Id)
    requires TablesOk(t) && id in t.stubs
    ensures
      var t' := Unmarked(t, id);
      TablesOk(t')
      && (forall i: Id :: i in t'.stubs <==> i in t.stubs && (i == id ==> t.stubs[id].count > 1))
      && (forall i <- t'.stubs :: t'.stubs[i].obj == t.stubs[i].obj)
      && (forall i <- t'.stubs :: t'.stubs[i].count == t.stubs[i].count - if i == id then 1 else 0)
  {
  }

  lemma MarshalKeeps(s: System, obj: Object, spare: Id)
    requires Inv(s) && Possible(s, Marshal(obj, spare))
    ensures Inv(AfterMarshal(s, obj, spare))
  {
    MarshalledOk(s.tables, obj, spare);
    MarshalKeepsResolves(s, obj, spare);
    MarshalKeepsBooks(s, obj, spare);
    hide TablesOk, Marshalled, Uses, Book, Resolves;
  }

  lemma MarshalKeepsResolves(s: System, obj: Object, spare: Id)
    requires Inv(s) && Possible(s, Marshal(obj, spare))
    ensures Resolves(AfterMarshal(s, obj, spare))
  {
    MarshalledOk(s.tables, obj, spare);
    hide TablesOk, Marshalled, Uses, Book, Resolves;
    var s' := AfterMarshal(s, obj, spare);
    MarshalResolves(s, s', Ref(s'.tables.objs[obj], obj));
  }

  lemma MarshalKeepsBooks(s: System, obj: Object, spare: Id)
    requires Inv(s) && Possible(s, Marshal(obj, spare))
    ensures var s' := AfterMarshal(s, obj, spare);
            (forall i: Id :: i in s'.merged <==> i in s'.tables.stubs) && forall i <- s'.tables.stubs :: Book(s', i)
  {
    MarshalledOk(s.tables, obj, spare);
    hide Uses, Book, Resolves;
    var id := if obj in s.tables.objs then s.tables.objs[obj] else spare;
    MarshalShape(s, obj, spare, id);
    hide TablesOk, Marshalled, AfterMarshal;
    MarshalBooks(s, AfterMarshal(s, obj, spare), id, obj);
  }

  lemma MarshalShape(s: System, obj: Object, spare: Id, id: Id)
    requires Inv(s) && Possible(s, Marshal(obj, spare))
    requires id == if obj in s.tables.objs then s.tables.objs[obj] else spare
    ensures
      var s' := AfterMarshal(s, obj, spare);
      s'.refs == s.refs + multiset{Ref(id, obj)} && s'.releases == s.releases && SameProxies(s, s')
      && s'.tables == Marshalled(s.tables, obj, spare)
      && s'.merged == (if id in s.tables.stubs then s.merged else s.merged[id := 0])
  {
    MarshalledOk(s.tables, obj, spare);
    hide TablesOk, Marshalled, Uses, Book, Resolves;
  }

  lemma MarshalBooks(s: System, s': System, id: Id, obj: Object)
    requires Resolves(s) && forall i <- s.tables.stubs :: Book(s, i)
    requires s'.refs == s.refs + multiset{Ref(id, obj)} && s'.releases == s.releases && SameProxies(s, s')
    requires id in s'.tables.stubs && s'.tables.stubs[id].obj == obj
    requires forall i: Id :: i in s'.tables.stubs <==> i in s.tables.stubs || i == id
    requires forall i <- s.tables.stubs ::
      s'.tables.stubs[i].obj == s.tables.stubs[i].obj
      && s'.tables.stubs[i].count == s.tables.stubs[i].count + if i == id then 1 else 0
    requires s'.merged == if id in s.tables.stubs then s.merged else s.merged[id := 0]
    requires forall i: Id :: i in s.merged <==> i in s.tables.stubs
    requires id !in s.tables.stubs ==> s'.tables.stubs[id].count == 1
    ensures forall i <- s'.tables.stubs :: Book(s', i)
    ensures forall i: Id :: i in s'.merged <==> i in s'.tables.stubs
  {
    hide Uses, Book, Resolves;
    forall i | i in s'.tables.stubs ensures Book(s', i) {
      MarshalBook(s, s', id, obj, i);
    }
  }

  lemma MarshalBook(s: System, s': System, id: Id, obj: Object, i: Id)
    requires Resolves(s) && i in s'.tables.stubs && (i in s.tables.stubs ==> Book(s, i))
    requires s'.refs == s.refs + multiset{Ref(id, obj)} && s'.releases == s.releases && SameProxies(s, s')
    requires i == id ==> s'.tables.stubs[i].obj == obj
    requires i in s.tables.stubs ==>
      s'.tables.stubs[i].obj == s.tables.stubs[i].obj && i in s'.merged && s'.merged[i] == s.merged[i]
      && s'.tables.stubs[i].count == s.tables.stubs[i].count + if i == id then 1 else 0
    requires i !in s.tables.stubs ==> i == id && i in s'.merged && s'.merged[i] == 0 && s'.tables.stubs[i].count == 1
    ensures Book(s', i)
  {
    if i in s.tables.stubs {
      hide Resolves;
      MarshalUses(s, s', id, obj, i);
    } else {
      NoUses(s, id, obj);
      hide Resolves;
    }
  }

  lemma MarshalResolves(s: System, s': System, ref: Ref)
    requires Resolves(s) && s'.refs == s.refs + multiset{ref} && s'.releases == s.releases && SameProxies(s, s')
    requires forall i <- s.tables.stubs :: i in s'.tables.stubs
    requires ref.id in s'.tables.stubs && s'.tables.stubs[ref.id].obj == ref.obj
    requires forall i <- s.tables.stubs :: s'.tables.stubs[i].obj == s.tables.stubs[i].obj
    ensures Resolves(s')
  {
  }

  lemma MarshalUses(s: System, s': System, id: Id, obj: Object, i: Id)
    requires i in s.tables.stubs && i in s'.tables.stubs && s'.tables.stubs[i].obj == s.tables.stubs[i].obj
    requires s'.refs == s.refs + multiset{Ref(id, obj)} && s'.releases == s.releases && SameProxies(s, s')
    requires i == id ==> s.tables.stubs[i].obj == obj
    ensures Uses(s', i) == Uses(s, i) + if i == id then 1 else 0
  {
  }

  /** Nothing is on the way to an id that has no stub. */
  lemma NoUses(s: System, id: Id, obj: Object)
    requires Resolves(s) && id !in s.tables.stubs
    ensures s.refs[Ref(id, obj)] == 0 && s.releases[id] == 0 && !Live(s, id)
  {
    assert Ref(id, obj) in s.refs ==> id in s.tables.stubs;
  }

  /** Giving back one use that has just been taken out of the books. */
  lemma GiveBackKeeps(s: System, s1: System, id: Id)
    requires Inv(s) && id in s.tables.stubs
    requires s1.tables == s.tables && s1.merged == s.merged
    requires s1.refs <= s.refs && s1.releases <= s.releases && SameProxies(s, s1)
    requires forall i <- s.tables.stubs :: Uses(s1, i) == Uses(s, i) - if i == id then 1 else 0
    ensures Inv(GiveBack(s1, id))
  {
    var s' := GiveBack(s1, id);
    UnmarkedOk(s.tables, id);
    assert Book(s, id);
    hide TablesOk, Unmarked;
    GiveBackResolves(s, s1, s', id);
    hide Resolves, Book;
    forall i | i in s'.tables.stubs ensures Book(s', i) {
      GiveBackBook(s, s1, s', id, i);
    }
  }

  lemma GiveBackBook(s: System, s1: System, s': System, id: Id, i: Id)
    requires i in s.tables.stubs && i in s'.tables.stubs && Book(s, i) && s1.tables == s.tables
    requires s'.tables.stubs[i].obj == s.tables.stubs[i].obj
    requires s'.tables.stubs[i].count == s.tables.stubs[i].count - if i == id then 1 else 0
    requires s'.refs == s1.refs && s'.releases == s1.releases && SameProxies(s1, s')
    requires i in s'.merged && s'.merged[i] == s.merged[i]
    requires Uses(s1, i) == Uses(s, i) - if i == id then 1 else 0
    ensures Book(s', i)
  {
    assert Uses(s', i) == Uses(s1, i);
  }

  lemma GiveBackResolves(s: System, s1: System, s': System, id: Id)
    requires Resolves(s) && id in s.tables.stubs && s1.tables == s.tables
    requires s1.refs <= s.refs && s1.releases <= s.releases && SameProxies(s, s1)
    requires s'.refs == s1.refs && s'.releases == s1.releases && SameProxies(s1, s')
    requires forall i <- s.tables.stubs :: i in s'.tables.stubs || (i == id && Uses(s1, id) == 0)
    requires forall i <- s'.tables.stubs :: i in s.tables.stubs && s'.tables.stubs[i].obj == s.tables.stubs[i].obj
    ensures Resolves(s')
  {
    forall r | r in s'.refs ensures r.id in s'.tables.stubs && s'.tables.stubs[r.id].obj == r.obj {
      assert r in s.refs;
      if r.id == id { assert r == Ref(id, s.tables.stubs[id].obj); }
    }
    forall i | i in s'.releases ensures i in s'.tables.stubs {
      assert i in s.releases;
    }
  }

  lemma UnmarshalKeeps(s: System, ref: Ref)
    requires Inv(s) && ref in s.refs
    ensures Inv(AfterUnmarshal(s, ref))
  {
    hide TablesOk, Uses;
    var s' := AfterUnmarshal(s, ref);
    assert Resolves(s') by { UnmarshalResolves(s, s', ref); }
    hide Resolves;
    forall i | i in s'.tables.stubs ensures Book(s', i) {
      assert Book(s, i);
      UnmarshalUses(s, s', ref, i);
    }
  }

  lemma UnmarshalResolves(s: System, s': System, ref: Ref)
    requires Resolves(s) && ref in s.refs && s'.refs == s.refs - multiset{ref} && s'.releases == s.releases
    requires s'.tables == s.tables && s'.dying == s.dying
    requires s'.proxies == s.proxies || s'.proxies == s.proxies[ref.id := ref.obj]
    ensures Resolves(s')
  {
    assert forall r <- s'.refs :: r in s.refs;
  }

  lemma UnmarshalUses(s: System, s': System, ref: Ref, i: Id)
    requires i in s.tables.stubs && s'.tables == s.tables && s'.releases == s.releases
    requires ref in s.refs && s'.refs == s.refs - multiset{ref} && (i == ref.id ==> s.tables.stubs[i].obj == ref.obj)
    requires s'.proxies == if ref.id in s.proxies then s.proxies else s.proxies[ref.id := ref.obj]
    requires s'.dying == s.dying && (i in s.dying ==> i in s.proxies)
    ensures Uses(s', i) == Uses(s, i) - if i == ref.id && ref.id in s.proxies then 1 else 0
  {
  }

  lemma FinalReleaseKeeps(s: System, id: Id)
    requires Inv(s) && Live(s, id)
    ensures Inv(AfterFinalRelease(s, id))
  {
    hide TablesOk;
    var s' := AfterFinalRelease(s, id);
    forall i | i in s'.tables.stubs ensures Book(s', i) {
      assert Book(s, i);
    }
  }

  lemma RemoveKeeps(s: System, id: Id)
    requires Inv(s) && id in s.dying
    ensures Inv(AfterRemove(s, id))
  {
    hide TablesOk;
    var s' := AfterRemove(s, id);
    forall i | i in s'.tables.stubs ensures Book(s', i) {
      assert Book(s, i) && Uses(s', i) == Uses(s, i);
    }
  }

  lemma NextKeeps(s: System, e: Event)
    requires Inv(s)
    ensures Inv(Next(s, e))
  {
    hide AfterMarshal, AfterWithdraw, AfterUnmarshal, AfterFinalRelease, AfterRemove, AfterRelease;
    if Possible(s, e) {
      match e {
        case Marshal(obj, spare) => MarshalKeeps(s, obj, spare);
        case Withdraw(ref) => WithdrawKeeps(s, ref);
        case Unmarshal(ref) => UnmarshalKeeps(s, ref);
        case FinalRelease(id) => FinalReleaseKeeps(s, id);
        case RemoveProxy(id) => RemoveKeeps(s, id);
        case DeliverRelease(id) => DeliverReleaseKeeps(s, id);
      }
    }
  }

  lemma WithdrawKeeps(s: System, ref: Ref)
    requires Inv(s) && ref in s.refs
    ensures ref.obj in s.tables.objs && s.tables.objs[ref.obj] == ref.id
    ensures Inv(AfterWithdraw(s, ref))
  {
    assert Book(s, ref.id);
    var s1 := s.(refs := s.refs - multiset{ref});
    forall i | i in s.tables.stubs ensures Uses(s1, i) == Uses(s, i) - if i == ref.id then 1 else 0 {
      TakenRef(s, s1, ref, i);
    }
    hide Uses, GiveBack;
    GiveBackKeeps(s, s1, ref.id);
  }

  lemma TakenRef(s: System, s1: System, ref: Ref, i: Id)
    requires i in s.tables.stubs && ref in s.refs && s1 == s.(refs := s.refs - multiset{ref})
    requires i == ref.id ==> s.tables.stubs[i].obj == ref.obj
    ensures Uses(s1, i) == Uses(s, i) - if i == ref.id then 1 else 0
  {
  }

  lemma DeliverReleaseKeeps(s: System, id: Id)
    requires Inv(s) && id in s.releases
    ensures Inv(AfterRelease(s, id))
  {
    assert Book(s, id);
    var s1 := s.(releases := s.releases - multiset{id});
    forall i | i in s.tables.stubs ensures Uses(s1, i) == Uses(s, i) - if i == id then 1 else 0 {
      TakenRelease(s, s1, id, i);
    }
    hide Uses, GiveBack;
    GiveBackKeeps(s, s1, id);
  }

  lemma TakenRelease(s: System, s1: System, id: Id, i: Id)
    requires i in s.tables.stubs && id in s.releases && s1 == s.(releases := s.releases - multiset{id})
    ensures Uses(s1, i) == Uses(s, i) - if i == id then 1 else 0
  {
  }

  // ---- Runs ----

  ghost function RunFrom(s: System, events: seq<Event>): (s': System)
    requires Inv(s)
    ensures Inv(s')
  {
    if events == [] then s
    else
      var s1 := RunFrom(s, events[..|events| - 1]);
      NextKeeps(s1, events[|events| - 1]);
      Next(s1, events[|events| - 1])
  }

  ghost function Run(events: seq<Event>): (s: System)
    ensures Inv(s)
  {
    RunFrom(Start, events)
  }

  /** Before Shutdown, in every reachable state: a live proxy and every reference in flight
      resolve to the stub of the object they were made for, a release in flight finds its
      stub, and the count covers all of them. */
  lemma AlwaysResolves(events: seq<Event>)
    ensures
      var s := Run(events);
      && (forall i <- s.proxies | Live(s, i) :: i in s.tables.stubs && s.tables.stubs[i].obj == s.proxies[i])
      && (forall r <- s.refs :: r.id in s.tables.stubs && s.tables.stubs[r.id].obj == r.obj)
      && (forall i <- s.releases :: i in s.tables.stubs)
      && (forall i <- s.tables.stubs :: s.tables.stubs[i].count >= Uses(s, i))
  {
    var s := Run(events);
    forall i | i in s.tables.stubs ensures s.tables.stubs[i].count >= Uses(s, i) {
      assert Book(s, i);
    }
  }

  /** The proxy that a reference is unmarshalled to is one for its object, and stays in the
      table when the releases under way are finished, exactly if the proxy found has not
      begun its own release. */
  lemma HandedOut(events: seq<Event>, ref: Ref)
    requires ref in Run(events).refs
    ensures
      var s := Run(events);
      var s' := RunFrom(s, [Unmarshal(ref)]);
      ref.id in s'.proxies && (s'.proxies[ref.id] == ref.obj && Live(s', ref.id) <==> ref.id !in s.dying)
  {
    hide Run, RunFrom;
    UnmarshalIs(Run(events), ref);
  }

  lemma UnmarshalIs(s: System, ref: Ref)
    requires Inv(s) && ref in s.refs
    ensures
      var s' := RunFrom(s, [Unmarshal(ref)]);
      s'.dying == s.dying && (ref.id in s.proxies && ref.id !in s.dying ==> s.proxies[ref.id] == ref.obj)
      && s'.proxies == if ref.id in s.proxies then s.proxies else s.proxies[ref.id := ref.obj]
  {
    RunOne(s, [], Unmarshal(ref));
    assert [] + [Unmarshal(ref)] == [Unmarshal(ref)];
  }

  lemma ReleaseIs(s: System, id: Id)
    requires Inv(s) && Live(s, id)
    ensures
      var s1 := RunFrom(s, [FinalRelease(id)]);
      var s2 := RunFrom(s, [FinalRelease(id), RemoveProxy(id)]);
      s1.proxies == s.proxies && s1.releases == s.releases + multiset{id} && s2.proxies == s.proxies - {id}
  {
    hide TablesOk, Resolves, Uses, Book;
    RunOne(s, [], FinalRelease(id));
    RunOne(s, [FinalRelease(id)], RemoveProxy(id));
    assert [] + [FinalRelease(id)] == [FinalRelease(id)];
    assert [FinalRelease(id)] + [RemoveProxy(id)] == [FinalRelease(id), RemoveProxy(id)];
  }

  /** In every reachable state the two stub tables are each other's inverse. */
  lemma AlwaysInverse(events: seq<Event>, o: Object, i: Id)
    ensures
      var t := Run(events).tables;
      o in t.objs && t.objs[o] == i <==> i in t.stubs && t.stubs[i].obj == o
  {
  }

  /** When nothing is in flight and no proxy is alive, the stubs still in the table are
      exactly those of which some reference met an existing proxy: such references are
      counted when marshalled but never given back. */
  lemma LeftoverStubs(events: seq<Event>, i: Id)
    requires
      var s := Run(events);
      s.refs == multiset{} && s.releases == multiset{} && s.proxies == map[]
    ensures
      var s := Run(events);
      i in s.tables.stubs <==> i in s.merged && s.merged[i] > 0
    ensures
      var s := Run(events);
      i in s.tables.stubs ==> s.tables.stubs[i].count == s.merged[i]
  {
    var s := Run(events);
    if i in s.tables.stubs {
      assert Book(s, i);
    }
  }

  // ---- What the steps do ----

  /** One reference of stub `id` is taken back: with the last one the stub leaves both tables. */
  ghost predicate GivenBack(t: Tables, t': Tables, id: Id) {
    && id in t.stubs
    && if t.stubs[id].count <= 1 then t'.stubs == t.stubs - {id} && t'.objs == t.objs - {t.stubs[id].obj}
       else t'.objs == t.objs && t'.stubs == t.stubs[id := Stub(t.stubs[id].obj, t.stubs[id].count - 1)]
  }

  lemma UnmarkedGivesBack(t: Tables, id: Id)
    requires TablesOk(t) && id in t.stubs
    ensures GivenBack(t, Unmarked(t, id), id)
  {
    if t.stubs[id].count == 1 {
      assert Removed(t, id).objs == t.objs - {t.stubs[id].obj};
    }
  }

  /** Marshalling puts one reference to the object's stub on its way and counts it; the stub is
      new, under the spare id, if there was none. */
  lemma MarshalStep(events: seq<Event>, obj: Object, spare: Id)
    requires Possible(Run(events), Marshal(obj, spare))
    ensures
      var s := Run(events);
      var s' := Run(events + [Marshal(obj, spare)]);
      var t := s.tables;
      var id := if obj in t.objs then t.objs[obj] else spare;
      s'.refs == s.refs + multiset{Ref(id, obj)} && s'.releases == s.releases && SameProxies(s, s')
      && s'.tables.objs == t.objs[obj := id]
      && s'.tables.stubs == t.stubs[id := Stub(obj, if id in t.stubs then t.stubs[id].count + 1 else 1)]
  {
    RunOne(Start, events, Marshal(obj, spare));
    hide Run;
    var s := Run(events);
    MarshallingIs(s, obj, spare);
  }

  lemma MarshallingIs(s: System, obj: Object, spare: Id)
    requires Inv(s) && Possible(s, Marshal(obj, spare))
    ensures
      var s' := Next(s, Marshal(obj, spare));
      var t := s.tables;
      var id := if obj in t.objs then t.objs[obj] else spare;
      s'.refs == s.refs + multiset{Ref(id, obj)} && s'.releases == s.releases && SameProxies(s, s')
      && s'.tables == Marshalled(t, obj, spare)
      && s'.tables.objs == t.objs[obj := id]
      && s'.tables.stubs == t.stubs[id := Stub(obj, if id in t.stubs then t.stubs[id].count + 1 else 1)]
  {
    hide Resolves, Uses, Book;
  }

  /** Withdrawing a reference takes it out of flight and gives it back to its stub. */
  lemma WithdrawStep(events: seq<Event>, ref: Ref)
    requires ref in Run(events).refs
    ensures
      var s := Run(events);
      var s' := Run(events + [Withdraw(ref)]);
      s'.refs == s.refs - multiset{ref} && s'.releases == s.releases && SameProxies(s, s')
      && GivenBack(s.tables, s'.tables, ref.id)
  {
    RunOne(Start, events, Withdraw(ref));
    hide Run, GivenBack;
    WithdrawIs(Run(events), ref);
  }

  lemma WithdrawIs(s: System, ref: Ref)
    requires Inv(s) && ref in s.refs
    ensures
      var s' := Next(s, Withdraw(ref));
      s'.refs == s.refs - multiset{ref} && s'.releases == s.releases && SameProxies(s, s')
      && ref.id in s.tables.stubs && s'.tables == Unmarked(s.tables, ref.id) && GivenBack(s.tables, s'.tables, ref.id)
  {
    WithdrawKeeps(s, ref);
    UnmarkedGivesBack(s.tables, ref.id);
    hide Uses, Book, GivenBack, Unmarked, TablesOk, Resolves;
  }

  /** So does a release that is delivered. */
  lemma ReleaseStep(events: seq<Event>, id: Id)
    requires id in Run(events).releases
    ensures
      var s := Run(events);
      var s' := Run(events + [DeliverRelease(id)]);
      s'.releases == s.releases - multiset{id} && s'.refs == s.refs && SameProxies(s, s')
      && GivenBack(s.tables, s'.tables, id)
  {
    RunOne(Start, events, DeliverRelease(id));
    hide Run, GivenBack;
    DeliveryIs(Run(events), id);
  }

  lemma DeliveryIs(s: System, id: Id)
    requires Inv(s) && id in s.releases
    ensures
      var s' := Next(s, DeliverRelease(id));
      s'.releases == s.releases - multiset{id} && s'.refs == s.refs && SameProxies(s, s')
      && id in s.tables.stubs && s'.tables == Unmarked(s.tables, id) && GivenBack(s.tables, s'.tables, id)
  {
    UnmarkedGivesBack(s.tables, id);
    hide Uses, Book, GivenBack, Unmarked;
  }

  /** Unmarshalling takes a reference out of flight and leaves a proxy for it in the table. */
  lemma UnmarshalStep(events: seq<Event>, ref: Ref)
    requires ref in Run(events).refs
    ensures
      var s := Run(events);
      var s' := Run(events + [Unmarshal(ref)]);
      s'.refs == s.refs - multiset{ref} && s'.releases == s.releases && s'.tables == s.tables && s'.dying == s.dying
      && s'.proxies == if ref.id in s.proxies then s.proxies else s.proxies[ref.id := ref.obj]
  {
    RunOne(Start, events, Unmarshal(ref));
    hide Run, Inv;
  }

  /** A final release sends one release for the stub; only then the proxy leaves its table. */
  lemma FinalReleaseSteps(events: seq<Event>, id: Id)
    requires Live(Run(events), id)
    ensures
      var s := Run(events);
      var s1 := Run(events + [FinalRelease(id)]);
      var s2 := Run(events + [FinalRelease(id)] + [RemoveProxy(id)]);
      s1.releases == s.releases + multiset{id} && s1.proxies == s.proxies && s1.refs == s.refs && s1.tables == s.tables
      && s2.releases == s1.releases && s2.proxies == s.proxies - {id} && s2.refs == s.refs && s2.tables == s.tables
  {
    RunOne(Start, events, FinalRelease(id));
    RunOne(Start, events + [FinalRelease(id)], RemoveProxy(id));
    hide Run, Inv;
  }

  ghost predicate Stays(s: System, s': System, i: Id) {
    && i in s.tables.stubs && i in s'.tables.stubs && s'.tables.stubs[i].obj == s.tables.stubs[i].obj
    && i in s.merged && i in s'.merged && s'.merged[i] >= s.merged[i]
  }

  /** Once a reference has met an existing proxy, its stub stays, whatever happens next. */
  lemma {:induction false} MergedForever(before: seq<Event>, after: seq<Event>, i: Id)
    requires i in Run(before).merged && Run(before).merged[i] > 0
    ensures Stays(Run(before), Run(before + after), i)
  {
    hide Inv, Next;
    if after == [] {
      assert before + after == before;
      MergedHasStub(Run(before), i);
    } else {
      var n := |after| - 1;
      MergedForever(before, after[..n], i);
      RunOne(Start, before + after[..n], after[n]);
      assert before + after[..n] + [after[n]] == before + after;
      MergedStays(Run(before + after[..n]), after[n], i);
    }
  }

  lemma MergedHasStub(s: System, i: Id)
    requires Inv(s) && i in s.merged
    ensures i in s.tables.stubs
  {
  }

  lemma MergedStays(s: System, e: Event, i: Id)
    requires Inv(s) && i in s.merged && s.merged[i] > 0
    ensures Stays(s, Next(s, e), i)
  {
    assert Book(s, i);
    hide Inv, Uses, AfterMarshal, AfterWithdraw, AfterUnmarshal, AfterFinalRelease, AfterRemove, AfterRelease;
    if Possible(s, e) {
      match e {
        case Marshal(obj, spare) => MarshalStays(s, obj, spare, i);
        case Withdraw(ref) => WithdrawStays(s, ref, i);
        case Unmarshal(ref) => UnmarshalStays(s, ref, i);
        case FinalRelease(id) => FinalReleaseStays(s, id, i);
        case RemoveProxy(id) => RemoveStays(s, id, i);
        case DeliverRelease(id) => ReleaseStays(s, id, i);
      }
    } else {
      assert s.tables.stubs[i].obj == s.tables.stubs[i].obj;
    }
  }

  lemma MarshalStays(s: System, obj: Object, spare: Id, i: Id)
    requires Inv(s) && Possible(s, Marshal(obj, spare)) && i in s.tables.stubs && i in s.merged
    ensures Stays(s, AfterMarshal(s, obj, spare), i)
  {
    MarshalledOk(s.tables, obj, spare);
    hide Marshalled;
  }

  lemma WithdrawStays(s: System, ref: Ref, i: Id)
    requires Inv(s) && ref in s.refs && i in s.tables.stubs && i in s.merged && s.merged[i] > 0
    ensures Stays(s, AfterWithdraw(s, ref), i)
  {
    WithdrawKeeps(s, ref);
    UnmarkedOk(s.tables, ref.id);
    assert Book(s, i);
    hide Unmarked, TablesOk;
  }

  lemma UnmarshalStays(s: System, ref: Ref, i: Id)
    requires i in s.tables.stubs && i in s.merged
    ensures Stays(s, AfterUnmarshal(s, ref), i)
  {
  }

  lemma FinalReleaseStays(s: System, id: Id, i: Id)
    requires i in s.tables.stubs && i in s.merged
    ensures Stays(s, AfterFinalRelease(s, id), i)
  {
  }

  lemma RemoveStays(s: System, id: Id, i: Id)
    requires i in s.tables.stubs && i in s.merged
    ensures Stays(s, AfterRemove(s, id), i)
  {
  }

  lemma ReleaseStays(s: System, id: Id, i: Id)
    requires Inv(s) && id in s.releases && i in s.tables.stubs && i in s.merged && s.merged[i] > 0
    ensures Stays(s, AfterRelease(s, id), i)
  {
    UnmarkedOk(s.tables, id);
    assert Book(s, i);
    hide Unmarked, TablesOk;
  }

  /** A run that ends with a stub nobody can release: the object is marshalled twice and
      both references reach the same proxy, whose final release gives back only one. */
  lemma StubLeaks(obj: Object) returns (events: seq<Event>)
    ensures
      var s := Run(events);
      s.refs == multiset{} && s.releases == multiset{} && s.proxies == map[] && s.tables.stubs == map[1 := Stub(obj, 1)]
  {
    hide Run, Inv, AfterMarshal, AfterUnmarshal, AfterFinalRelease, AfterRemove, AfterRelease, Next;
    var e0 := Meet(obj);
    var e1 := RunStep(e0, Marshal(obj, 1));
    MarshalAgain(obj, Run(e0));
    var e2 := RunStep(e1, Unmarshal(Ref(1, obj)));
    MeetAgain(obj, Run(e1));
    var e3 := RunStep(e2, FinalRelease(1));
    BeginRelease(obj, Run(e2));
    var e4 := RunStep(e3, RemoveProxy(1));
    EndRelease(obj, Run(e3));
    events := RunStep(e4, DeliverRelease(1));
    GiveOneBack(obj, Run(e4));
  }

  /** A run after which a reference to one object is unmarshalled to a proxy of another: the
      first object's proxy has sent its release, which has freed the id, and has not yet left
      the table when the id comes back with a reference to the second object. */
  lemma WrongProxy(first: Object, second: Object) returns (events: seq<Event>)
    requires first != second
    ensures
      var s := Run(events);
      s.refs == multiset{Ref(1, second)} && s.dying == {1}
      && s.tables == Tables(map[second := 1], map[1 := Stub(second, 1)])
      && RunFrom(s, [Unmarshal(Ref(1, second))]).proxies == map[1 := first]
  {
    hide Run, Inv, AfterMarshal, AfterUnmarshal, AfterFinalRelease, AfterRemove, AfterRelease, Next;
    var e0 := Meet(first);
    var e1 := RunStep(e0, FinalRelease(1));
    BeginRelease(first, Run(e0));
    var e2 := RunStep(e1, DeliverRelease(1));
    GiveLastBack(first, Run(e1));
    events := RunStep(e2, Marshal(second, 1));
    MarshalFirst(second, Run(e2));
    RunOne(Run(events), [], Unmarshal(Ref(1, second)));
    assert [] + [Unmarshal(Ref(1, second))] == [Unmarshal(Ref(1, second))];
    MeetDying(first, second, Run(events));
  }

  /** A run after which an object has a stub here and a proxy there. */
  lemma Meet(obj: Object) returns (events: seq<Event>)
    ensures
      Run(events)
      == System(Tables(map[obj := 1], map[1 := Stub(obj, 1)]), map[1 := obj], {}, multiset{}, multiset{}, map[1 := 0])
  {
    hide Run, Inv, AfterMarshal, AfterUnmarshal, AfterFinalRelease, AfterRemove, AfterRelease, Next;
    var e1 := RunStep([], Marshal(obj, 1));
    MarshalFirst(obj, Start);
    events := RunStep(e1, Unmarshal(Ref(1, obj)));
    MeetFirst(obj, Run(e1));
  }

  lemma RunStep(events: seq<Event>, e: Event) returns (more: seq<Event>)
    ensures Run([]) == Start && Run(more) == Next(Run(events), e)
  {
    more := events + [e];
    RunOne(Start, events, e);
  }

  lemma MarshalFirst(obj: Object, s: System)
    requires Inv(s) && s.tables == Tables(map[], map[]) && s.refs == multiset{} && s.merged == map[]
    ensures Next(s, Marshal(obj, 1))
         == s.(tables := Tables(map[obj := 1], map[1 := Stub(obj, 1)]), refs := multiset{Ref(1, obj)},
               merged := map[1 := 0])
  {
    hide Inv;
  }

  lemma MeetFirst(obj: Object, s: System)
    requires Inv(s) && s.refs == multiset{Ref(1, obj)} && s.proxies == map[]
    ensures Next(s, Unmarshal(Ref(1, obj))) == s.(refs := multiset{}, proxies := map[1 := obj])
  {
    hide Inv;
  }

  lemma MarshalAgain(obj: Object, s: System)
    requires Inv(s) && s.tables == Tables(map[obj := 1], map[1 := Stub(obj, 1)]) && s.refs == multiset{}
    ensures Next(s, Marshal(obj, 1))
         == s.(tables := s.tables.(stubs := map[1 := Stub(obj, 2)]), refs := multiset{Ref(1, obj)})
  {
    hide Inv;
    assert Marshalled(s.tables, obj, 1).stubs == map[1 := Stub(obj, 2)];
  }

  lemma MeetAgain(obj: Object, s: System)
    requires Inv(s) && s.refs == multiset{Ref(1, obj)} && 1 in s.proxies && s.merged == map[1 := 0]
    ensures Next(s, Unmarshal(Ref(1, obj))) == s.(refs := multiset{}, merged := map[1 := 1])
  {
    hide Inv;
  }

  lemma MeetDying(first: Object, second: Object, s: System)
    requires Inv(s) && s.refs == multiset{Ref(1, second)} && s.proxies == map[1 := first]
    ensures Next(s, Unmarshal(Ref(1, second))).proxies == s.proxies
  {
    hide Inv;
  }

  lemma BeginRelease(obj: Object, s: System)
    requires Inv(s) && s.proxies == map[1 := obj] && s.dying == {} && s.releases == multiset{}
    ensures Next(s, FinalRelease(1)) == s.(dying := {1}, releases := multiset{1})
  {
    hide Inv;
  }

  lemma EndRelease(obj: Object, s: System)
    requires Inv(s) && s.proxies == map[1 := obj] && s.dying == {1}
    ensures Next(s, RemoveProxy(1)) == s.(dying := {}, proxies := map[])
  {
    hide Inv;
  }

  lemma GiveOneBack(obj: Object, s: System)
    requires Inv(s) && s.tables.stubs == map[1 := Stub(obj, 2)] && s.releases == multiset{1}
    ensures
      var s' := Next(s, DeliverRelease(1));
      s'.refs == s.refs && SameProxies(s, s') && s'.releases == multiset{} && s'.tables.stubs == map[1 := Stub(obj, 1)]
  {
    hide Inv;
    assert Unmarked(s.tables, 1).stubs == map[1 := Stub(obj, 1)];
  }

  lemma GiveLastBack(obj: Object, s: System)
    requires Inv(s) && s.tables == Tables(map[obj := 1], map[1 := Stub(obj, 1)]) && s.releases == multiset{1}
    ensures Next(s, DeliverRelease(1)) == s.(tables := Tables(map[], map[]), releases := multiset{}, merged := map[])
  {
    hide Inv;
    assert Unmarked(s.tables, 1) == Tables(map[], map[]);
  }

  lemma RunOne(s: System, events: seq<Event>, e: Event)
    requires Inv(s)
    ensures RunFrom(s, events + [e]) == Next(RunFrom(s, events), e) && RunFrom(s, []) == s
  {
    assert (events + [e])[..|events|] == events;
  }

  // ---- The stub tables as an object ----

  /** In every consistent system with the stub tables `before` in which the event is possible,
      they are `after` when it has taken place. */
  ghost predicate Retables(e: Event, before: Tables, after: Tables) {
    forall s | Inv(s) && s.tables == before && Possible(s, e) :: Next(s, e).tables == after
  }

  lemma MarshalRetables(obj: Object, id: Id, before: Tables, after: Tables)
    requires obj in before.objs ==> before.objs[obj] in before.stubs
    requires after == Marshalled(before, obj, id)
    ensures Retables(Marshal(obj, id), before, after)
  {
    hide Inv, Next, Marshalled;
    forall s | Inv(s) && s.tables == before && Possible(s, Marshal(obj, id))
      ensures Next(s, Marshal(obj, id)).tables == after
    {
      MarshallingIs(s, obj, id);
    }
  }

  lemma ReleaseRetables(id: Id, before: Tables, after: Tables)
    requires id in before.stubs && before.stubs[id].count > 0 && after == Unmarked(before, id)
    ensures Retables(DeliverRelease(id), before, after)
  {
    hide Inv, Next, Unmarked, GivenBack;
    forall s | Inv(s) && s.tables == before && Possible(s, DeliverRelease(id))
      ensures Next(s, DeliverRelease(id)).tables == after
    {
      DeliveryIs(s, id);
    }
  }

  lemma WithdrawRetables(obj: Object, before: Tables, after: Tables)
    requires TablesOk(before) && obj in before.objs && after == Unmarked(before, before.objs[obj])
    ensures Retables(Withdraw(Ref(before.objs[obj], obj)), before, after)
  {
    hide Inv, Next, Unmarked, GivenBack;
    var ref := Ref(before.objs[obj], obj);
    forall s | Inv(s) && s.tables == before && Possible(s, Withdraw(ref))
      ensures Next(s, Withdraw(ref)).tables == after
    {
      WithdrawIs(s, ref);
    }
  }

  class StubManager {
    var objs: map<Object, Id>
    var stubs: map<Id, Stub>

    function View(): Tables
      reads this
    {
      Tables(objs, stubs)
    }

    constructor ()
      ensures View() == Tables(map[], map[])
    {
      objs, stubs := map[], map[];
    }

    /** `MarshalInterface` for an object without custom marshalling: use its stub or make one,
        and count the reference. It fails only when every id is taken. */
    method MarshalInterface(obj: Object) returns (r: Option<Id>)
      requires TablesOk(View())
      modifies this
      ensures r.Some? ==>
        (if obj in old(objs) then r.value == old(objs)[obj] else 1 <= r.value <= MAX_ID && r.value !in old(stubs))
        && View() == Marshalled(old(View()), obj, r.value)
        && Retables(Marshal(obj, r.value), old(View()), View())
      ensures r.None? ==> View() == old(View()) && obj !in objs && forall i | 1 <= i <= MAX_ID :: i in stubs
    {
      var id := 0;
      if obj in objs {
        id := objs[obj];
      } else {
        id := 1;
        while id <= MAX_ID && id in stubs
          invariant 1 <= id <= MAX_ID + 1
          invariant forall i | 1 <= i < id :: i in stubs
          decreases MAX_ID + 1 - id
        {
          id := id + 1;
        }
        if id > MAX_ID {
          return None;
        }
        stubs := stubs[id := Stub(obj, 0)];
        objs := objs[obj := id];
      }
      stubs := stubs[id := stubs[id].(count := stubs[id].count + 1)];
      MarshalRetables(obj, id, old(View()), View());
      return Some(id);
    }

    /** `RemoteRelease` */
    method RemoteRelease(id: Id)
      requires id in stubs && stubs[id].count > 0
      modifies this
      ensures View() == Unmarked(old(View()), id)
      ensures Retables(DeliverRelease(id), old(View()), View())
    {
      stubs := stubs[id := stubs[id].(count := stubs[id].count - 1)];
      if stubs[id].count == 0 {
        RemoveStub(id);
      }
      assert View().stubs == Unmarked(old(View()), id).stubs;
      ReleaseRetables(id, old(View()), View());
    }

    /** `RemoveStub`: scan the object table for entries with this id. */
    method RemoveStub(id: Id)
      modifies this
      ensures View() == Removed(old(View()), id)
    {
      if id in stubs {
        stubs := stubs - {id};
        var todo := objs.Keys;
        while todo != {}
          invariant todo <= objs.Keys
          invariant stubs == old(stubs) - {id}
          invariant objs == map o | o in old(objs) && (o in todo || old(objs)[o] != id) :: old(objs)[o]
          decreases |todo|
        {
          var o :| o in todo;
          if objs[o] == id {
            objs := objs - {o};
          }
          todo := todo - {o};
        }
      }
    }

    /** `ReleaseMarshalData`: the reference was not sent after all. */
    method ReleaseMarshalData(obj: Object) returns (found: bool)
      requires TablesOk(View())
      modifies this
      ensures found == (obj in old(objs))
      ensures View() == if found then Unmarked(old(View()), old(objs)[obj]) else old(View())
      ensures found ==> Retables(Withdraw(Ref(old(objs)[obj], obj)), old(View()), View())
    {
      found := obj in objs;
      if found {
        RemoteRelease(objs[obj]);
        WithdrawRetables(obj, old(View()), View());
      }
    }

    /** Looking up the stub that an incoming call names. */
    method Find(id: Id) returns (r: Option<Object>)
      ensures r == if id in stubs then Some(stubs[id].obj) else None
    {
      r := if id in stubs then Some(stubs[id].obj) else None;
    }
  }

  // ---- The proxy table ----

  /** In every consistent system with the proxy table `before` in which the first of the
      events is possible, the table is `after` when they have taken place. */
  ghost predicate Changes(events: seq<Event>, before: map<Id, Object>, after: map<Id, Object>)
    requires events != []
  {
    forall s | Inv(s) && s.proxies == before && Possible(s, events[0]) :: RunFrom(s, events).proxies == after
  }

  ghost predicate Sends(e: Event, id: Id) {
    forall s | Inv(s) && Possible(s, e) :: RunFrom(s, [e]).releases == s.releases + multiset{id}
  }

  lemma UnmarshalChanges(ref: Ref, before: map<Id, Object>, after: map<Id, Object>)
    requires after == if ref.id in before then before else before[ref.id := ref.obj]
    ensures Changes([Unmarshal(ref)], before, after)
  {
    hide RunFrom, Inv;
    forall s | Inv(s) && s.proxies == before && Possible(s, Unmarshal(ref))
      ensures RunFrom(s, [Unmarshal(ref)]).proxies == after
    {
      UnmarshalIs(s, ref);
    }
  }

  lemma ReleaseChanges(id: Id, before: map<Id, Object>, after: map<Id, Object>)
    requires after == before - {id}
    ensures Changes([FinalRelease(id), RemoveProxy(id)], before, after)
  {
    hide RunFrom, Inv;
    forall s | Inv(s) && s.proxies == before && Possible(s, FinalRelease(id))
      ensures RunFrom(s, [FinalRelease(id), RemoveProxy(id)]).proxies == after
    {
      ReleaseIs(s, id);
    }
  }

  lemma SendsItsId(id: Id)
    ensures Sends(FinalRelease(id), id)
  {
    hide RunFrom, Inv;
    forall s | Inv(s) && Possible(s, FinalRelease(id))
      ensures RunFrom(s, [FinalRelease(id)]).releases == s.releases + multiset{id}
    {
      ReleaseIs(s, id);
    }
  }

  class Proxy {
    const id: Id
    ghost const obj: Object    // known only at the other end

    constructor (ref: Ref)
      ensures id == ref.id && obj == ref.obj
    {
      id, obj := ref.id, ref.obj;
    }
  }

  class ProxyManager {
    /** `m_mapProxyIds` */
    var proxies: map<Id, Proxy>

    ghost predicate Valid()
      reads this
    {
      forall i <- proxies :: proxies[i].id == i
    }

    ghost function View(): map<Id, Object>
      reads this
    {
      map i | i in proxies :: proxies[i].obj
    }

    constructor ()
      ensures Valid() && View() == Start.proxies
    {
      proxies := map[];
    }

    /** `UnmarshalInterface`: the proxy in the table, which is a new one if there was none. */
    method UnmarshalInterface(ref: Ref) returns (p: Proxy)
      requires Valid()
      modifies this
      ensures Valid() && ref.id in proxies && p == proxies[ref.id]
      ensures if ref.id in old(proxies) then proxies == old(proxies) else fresh(p) && p.obj == ref.obj
      ensures Changes([Unmarshal(ref)], old(View()), View())
    {
      hide Changes;
      if ref.id in proxies {
        p := proxies[ref.id];
      } else {
        p := new Proxy(ref);
        proxies := proxies[ref.id := p];
      }
      UnmarshalChanges(ref, old(View()), View());
    }

    /** `Final_Release`: a release for the stub is sent, then the proxy leaves the table. */
    method FinalRelease(p: Proxy) returns (released: Id)
      requires Valid() && p.id in proxies && proxies[p.id] == p
      modifies this
      ensures Valid() && p !in proxies.Values
      ensures Sends(Event.FinalRelease(p.id), released)
      ensures Changes([Event.FinalRelease(p.id), Event.RemoveProxy(p.id)], old(View()), View())
    {
      hide Changes, Sends;
      released := p.id;
      SendsItsId(p.id);
      RemoveProxy(p.id);
      ReleaseChanges(p.id, old(View()), View());
    }

    /** `RemoveProxy` */
    method RemoveProxy(id: Id)
      requires Valid()
      modifies this
      ensures Valid() && proxies == old(proxies) - {id}
    {
      proxies := proxies - {id};
    }
  }
}
