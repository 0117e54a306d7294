/** Running object tables, each chained to an upstream table: `LocalROT`
    (RunningObjectTable.cpp:82-255) and the `RunningObjectTable` of a user process
    (UserROT.cpp:44-227). */
module RunningObjects {
  import opened Options

  type Oid = string
  type Object = nat
  type Flags = bv16

  const PROCESS_SCOPE: Flags := 0x1
  const USER_SCOPE: Flags := 0x3
  const SINGLE_USE: Flags := 0x100
  const MULTIPLE_REGISTRATION: Flags := 0x200

  predicate Has(flags: Flags, mask: Flags) {
    flags & mask != 0
  }

  /** `serial` names the registration; the code has no such field. */
  datatype Info = Info(oid: Oid, obj: Object, flags: Flags, rotCookie: nat, source: nat, serial: nat)

  /** `local` is a process's own table, which knows no sources. `name` is the source id that
      an upstream table sees in this table's calls. */
  datatype Table = Table(local: bool, name: nat, byCookie: map<nat, Info>, byOid: map<Oid, seq<nat>>)

  const MAX_COOKIE: nat := 0xFFFF_FFFF

  /** What a `HandleTable` with these keys gives to the next entry. */
  type Pick = set<nat> -> nat

  ghost predicate PickOk(pick: Pick) {
    forall keys: set<nat> :: |keys| < MAX_COOKIE ==> pick(keys) !in keys && 1 <= pick(keys) <= MAX_COOKIE
  }

  function CookiesOf(t: Table, oid: Oid): seq<nat> {
    if oid in t.byOid then t.byOid[oid] else []
  }

  function Remove(s: seq<nat>, c: nat): seq<nat> {
    if s == [] then [] else (if s[0] == c then [] else [s[0]]) + Remove(s[1..], c)
  }

  function Inserted(t: Table, cookie: nat, info: Info): Table {
    t.(byCookie := t.byCookie[cookie := info], byOid := t.byOid[info.oid := CookiesOf(t, info.oid) + [cookie]])
  }

  function Removed(t: Table, cookie: nat): Table
    requires cookie in t.byCookie
  {
    var oid := t.byCookie[cookie].oid;
    t.(byCookie := t.byCookie - {cookie}, byOid := t.byOid[oid := Remove(CookiesOf(t, oid), cookie)])
  }

  // ---- Revoking ----

  /** A table of a user process lets a source revoke only what that source registered. */
  predicate MayRevoke(t: Table, cookie: nat, source: nat) {
    cookie in t.byCookie && (t.local || source == 0 || t.byCookie[cookie].source == source)
  }

  /** `chain[0]` is the table that is asked, its upstream table follows. */
  function Revoke(chain: seq<Table>, cookie: nat, source: nat): (r: seq<Table>)
    ensures |r| == |chain|
    decreases |chain|
  {
    if chain == [] || !MayRevoke(chain[0], cookie, source) then chain
    else
      var info := chain[0].byCookie[cookie];
      [Removed(chain[0], cookie)]
      + (if info.rotCookie != 0 then Revoke(chain[1..], info.rotCookie, chain[0].name) else chain[1..])
  }

  /** Pops a revoke list. */
  function RevokeAll(chain: seq<Table>, cookies: seq<nat>): (r: seq<Table>)
    ensures |r| == |chain|
    decreases |cookies|
  {
    if cookies == [] then chain
    else RevokeAll(Revoke(chain, cookies[|cookies| - 1], 0), cookies[..|cookies| - 1])
  }

  // ---- Registering ----

  predicate Conflicts(info: Info, flags: Flags) {
    !Has(info.flags, MULTIPLE_REGISTRATION) || info.flags == flags
  }

  /** The dead entries among `cookies`, or `None` when a live one conflicts. */
  function Check(t: Table, cookies: seq<nat>, flags: Flags, dead: set<Object>): Option<seq<nat>> {
    if cookies == [] then Some([])
    else
      var last := cookies[|cookies| - 1];
      match Check(t, cookies[..|cookies| - 1], flags, dead)
      case None => None
      case Some(list) =>
        if last !in t.byCookie then Some(list)
        else if t.byCookie[last].obj in dead then Some(list + [last])
        else if Conflicts(t.byCookie[last], flags) then None
        else Some(list)
  }

  /** Is an object of this scope registered upstream too? */
  predicate GoesUp(t: Table, flags: Flags) {
    Has(flags & 0xF, !(if t.local then PROCESS_SCOPE else USER_SCOPE))
  }

  /** One call of `RegisterObject`. */
  datatype Request = Request(oid: Oid, obj: Object, flags: Flags, serial: nat)

  /** What is put into the table once upstream is done. */
  function Enter(chain: seq<Table>, source: nat, q: Request, rotCookie: nat, dead: set<Object>, pick: Pick)
    : (r: (seq<Table>, Option<nat>))
    requires chain != []
    ensures |r.0| == |chain|
  {
    var t := chain[0];
    var list := Check(t, CookiesOf(t, q.oid), q.flags, dead);
    if list.None? || |t.byCookie| >= MAX_COOKIE then
      (if rotCookie != 0 then [t] + Revoke(chain[1..], rotCookie, t.name) else chain, None)
    else
      var cookie := pick(t.byCookie.Keys);
      var info := Info(q.oid, q.obj, q.flags, rotCookie, if t.local then 0 else source, q.serial);
      (RevokeAll([Inserted(t, cookie, info)] + chain[1..], list.value), Some(cookie))
  }

  /** `None` stands for an exception. */
  function Register(chain: seq<Table>, source: nat, q: Request, dead: set<Object>, pick: Pick): (r: (seq<Table>, Option<nat>))
    requires chain != []
    ensures |r.0| == |chain|
    decreases |chain|
  {
    var t := chain[0];
    if q.flags & 0xF == 0 then (chain, None)
    else if !GoesUp(t, q.flags) then Enter(chain, source, q, 0, dead, pick)
    else if |chain| == 1 then
      if t.local then (chain, None) else Enter(chain, source, q, 0, dead, pick)
    else
      var (up, cookie) := Register(chain[1..], t.name, q, dead, pick);
      if cookie.None? then ([t] + up, None) else Enter([t] + up, source, q, cookie.value, dead, pick)
  }

  // ---- Getting ----

  /** What a scan finds: the dead entries before the hit, and the hit. */
  datatype Found = Found(list: seq<nat>, hit: Option<nat>)

  function Scan(t: Table, cookies: seq<nat>, search: Flags, dead: set<Object>): (f: Found)
    ensures f.hit.Some? ==> f.hit.value in t.byCookie
  {
    if cookies == [] then Found([], None)
    else
      var last := cookies[|cookies| - 1];
      var f := Scan(t, cookies[..|cookies| - 1], search, dead);
      if f.hit.Some? || last !in t.byCookie || !(t.local || Has(t.byCookie[last].flags, search)) then f
      else if t.byCookie[last].obj in dead then f.(list := f.list + [last])
      else f.(hit := Some(last))
  }

  /** The entry that a `GetObject` was served from. */
  datatype Hit = Hit(table: nat, serial: nat, obj: Object, single: bool)

  const PUBLIC_SCOPE: Flags := 0x7
  const EXTERNAL_PUBLIC: Flags := 0xF

  /** What a table of a user process offers: to a caller on another machine the last table of
      the chain offers what is public outside. */
  function Search(far: bool, last: bool): Flags {
    if far && last then EXTERNAL_PUBLIC else PUBLIC_SCOPE
  }

  /** `far` says, for each table by its name, whether the call reaches it from another machine.
      `supports` says which objects have the interface asked for; an object without it
      makes the call throw before anything is revoked. */
  function Get(chain: seq<Table>, oid: Oid, far: nat -> bool, dead: set<Object>, supports: set<Object>)
    : (r: (seq<Table>, Option<Hit>))
    ensures |r.0| == |chain|
    decreases |chain|
  {
    if chain == [] then (chain, None)
    else
      var t := chain[0];
      var f := Scan(t, CookiesOf(t, oid), Search(far(t.name), |chain| == 1), dead);
      if f.hit.None? then
        var now := RevokeAll(chain, f.list);
        var (up, hit) := Get(now[1..], oid, far, dead, supports);
        ([now[0]] + up, hit)
      else
        var info := t.byCookie[f.hit.value];
        if info.obj !in supports then (chain, None)
        else
          var single := Has(info.flags, SINGLE_USE);
          (RevokeAll(chain, if single then f.list + [f.hit.value] else f.list),
           Some(Hit(t.name, info.serial, info.obj, single)))
  }

  // ---- The tables as objects ----

  class Rot {
    const local: bool
    const name: nat
    const upstream: Rot?
    ghost const repr: set<Rot>
    ghost const depth: nat
    var byCookie: map<nat, Info>
    var byOid: map<Oid, seq<nat>>

    ghost predicate Valid()
      reads this, repr
      decreases depth
    {
      && this in repr
      && (upstream != null ==>
            && upstream in repr && upstream.repr == repr - {this} && this !in upstream.repr
            && upstream.depth < depth && upstream.Valid())
    }

    function Own(): Table
      reads this
    {
      Table(local, name, byCookie, byOid)
    }

    ghost function View(): (v: seq<Table>)
      requires Valid()
      reads this, repr
      ensures v != []
      decreases depth
    {
      [Own()] + (if upstream == null then [] else upstream.View())
    }

    constructor (local: bool, name: nat, upstream: Rot?)
      requires upstream != null ==> upstream.Valid()
      ensures Valid() && this.upstream == upstream
      ensures View() == [Table(local, name, map[], map[])] + (if upstream == null then [] else upstream.View())
      ensures repr == {this} + (if upstream == null then {} else upstream.repr)
    {
      this.local, this.name, this.upstream := local, name, upstream;
      byCookie, byOid := map[], map[];
      repr := {this} + (if upstream == null then {} else upstream.repr);
      depth := if upstream == null then 0 else upstream.depth + 1;
    }

    method RevokeObject(cookie: nat, source: nat)
      requires Valid()
      modifies repr
      ensures Valid()
      ensures View() == Revoke(old(View()), cookie, source)
      decreases depth, 0
    {
      if MayRevoke(Own(), cookie, source) {
        var info := byCookie[cookie];
        byOid := byOid[info.oid := Remove(CookiesOf(Own(), info.oid), cookie)];
        byCookie := byCookie - {cookie};
        if info.rotCookie != 0 && upstream != null {
          upstream.RevokeObject(info.rotCookie, name);
        }
      }
    }

    method PopAll(cookies: seq<nat>)
      requires Valid()
      modifies repr
      ensures Valid()
      ensures View() == RevokeAll(old(View()), cookies)
      decreases depth, 1
    {
      var list := cookies;
      while list != []
        invariant Valid()
        invariant RevokeAll(View(), list) == RevokeAll(old(View()), cookies)
        decreases |list|
      {
        var top := list[|list| - 1];
        list := list[..|list| - 1];
        RevokeObject(top, 0);
      }
    }

    /** Looks for a live entry that conflicts; collects the dead ones. */
    method CheckFor(oid: Oid, flags: Flags, dead: set<Object>) returns (list: Option<seq<nat>>)
      ensures list == Check(Own(), CookiesOf(Own(), oid), flags, dead)
    {
      var cookies := CookiesOf(Own(), oid);
      var dying := [];
      var i := 0;
      while i < |cookies|
        invariant i <= |cookies|
        invariant Check(Own(), cookies[..i], flags, dead) == Some(dying)
      {
        assert cookies[..i + 1][..i] == cookies[..i];
        if cookies[i] in byCookie {
          if byCookie[cookies[i]].obj in dead {
            dying := dying + [cookies[i]];
          } else if Conflicts(byCookie[cookies[i]], flags) {
            ConflictStays(Own(), cookies, i + 1, flags, dead);
            return None;
          }
        }
        i := i + 1;
      }
      assert cookies[..i] == cookies;
      list := Some(dying);
    }

    method EnterObject(source: nat, q: Request, rotCookie: nat, dead: set<Object>, pick: Pick) returns (cookie: Option<nat>)
      requires Valid()
      modifies repr
      ensures Valid()
      ensures (View(), cookie) == Enter(old(View()), source, q, rotCookie, dead, pick)
      decreases depth, 2
    {
      var list := CheckFor(q.oid, q.flags, dead);
      if list.None? || |byCookie| >= MAX_COOKIE {
        if rotCookie != 0 && upstream != null {
          upstream.RevokeObject(rotCookie, name);
        }
        return None;
      }
      var c := pick(byCookie.Keys);
      byOid := byOid[q.oid := CookiesOf(Own(), q.oid) + [c]];
      byCookie := byCookie[c := Info(q.oid, q.obj, q.flags, rotCookie, if local then 0 else source, q.serial)];
      PopAll(list.value);
      cookie := Some(c);
    }

    method RegisterObject(source: nat, q: Request, dead: set<Object>, pick: Pick) returns (cookie: Option<nat>)
      requires Valid()
      modifies repr
      ensures Valid()
      ensures (View(), cookie) == Register(old(View()), source, q, dead, pick)
      decreases depth, 3
    {
      if q.flags & 0xF == 0 {
        return None;
      }
      var rotCookie := 0;
      if GoesUp(Own(), q.flags) {
        if upstream != null {
          var c := upstream.RegisterObject(name, q, dead, pick);
          if c.None? {
            return None;
          }
          rotCookie := c.value;
        } else if local {
          return None;
        }
      }
      cookie := EnterObject(source, q, rotCookie, dead, pick);
    }

    method ScanFor(oid: Oid, search: Flags, dead: set<Object>) returns (f: Found)
      ensures f == Scan(Own(), CookiesOf(Own(), oid), search, dead)
    {
      var cookies := CookiesOf(Own(), oid);
      f := Found([], None);
      var i := 0;
      while i < |cookies|
        invariant i <= |cookies| && f.hit.None?
        invariant Scan(Own(), cookies[..i], search, dead) == f
      {
        assert cookies[..i + 1][..i] == cookies[..i];
        if cookies[i] in byCookie && (local || Has(byCookie[cookies[i]].flags, search)) {
          if byCookie[cookies[i]].obj in dead {
            f := f.(list := f.list + [cookies[i]]);
          } else {
            HitStays(Own(), cookies, i + 1, search, dead);
            return f.(hit := Some(cookies[i]));
          }
        }
        i := i + 1;
      }
      assert cookies[..i] == cookies;
    }

    method GetObject(oid: Oid, far: nat -> bool, dead: set<Object>, supports: set<Object>) returns (hit: Option<Hit>)
      requires Valid()
      modifies repr
      ensures Valid()
      ensures (View(), hit) == Get(old(View()), oid, far, dead, supports)
      decreases depth, 2
    {
      var f := ScanFor(oid, Search(far(name), upstream == null), dead);
      if f.hit.None? {
        PopAll(f.list);
        if upstream != null {
          hit := upstream.GetObject(oid, far, dead, supports);
        } else {
          hit := None;
        }
      } else {
        var info := byCookie[f.hit.value];
        if info.obj !in supports {
          return None;
        }
        var single := Has(info.flags, SINGLE_USE);
        PopAll(if single then f.list + [f.hit.value] else f.list);
        hit := Some(Hit(name, info.serial, info.obj, single));
      }
    }
  }

  lemma {:induction false} ConflictStays(t: Table, cookies: seq<nat>, i: nat, flags: Flags, dead: set<Object>)
    requires i <= |cookies| && Check(t, cookies[..i], flags, dead) == None
    ensures Check(t, cookies, flags, dead) == None
    decreases |cookies|
  {
    if i < |cookies| {
      var rest := cookies[..|cookies| - 1];
      assert rest[..i] == cookies[..i];
      ConflictStays(t, rest, i, flags, dead);
    } else {
      assert cookies[..i] == cookies;
    }
  }

  lemma {:induction false} HitStays(t: Table, cookies: seq<nat>, i: nat, search: Flags, dead: set<Object>)
    requires i <= |cookies| && Scan(t, cookies[..i], search, dead).hit.Some?
    ensures Scan(t, cookies, search, dead) == Scan(t, cookies[..i], search, dead)
    decreases |cookies|
  {
    if i < |cookies| {
      var rest := cookies[..|cookies| - 1];
      assert rest[..i] == cookies[..i];
      HitStays(t, rest, i, search, dead);
    } else {
      assert cookies[..i] == cookies;
    }
  }

  // ---- What every operation keeps ----

  /** The two tables index the same set: every cookie stands once, under its own oid. */
  ghost predicate Indexed(t: Table) {
    && (forall oid, c :: c in CookiesOf(t, oid) <==> c in t.byCookie && t.byCookie[c].oid == oid)
    && (forall oid :: NoDuplicates(CookiesOf(t, oid)))
  }

  predicate NoDuplicates<T(==)>(s: seq<T>) {
    forall i, j :: 0 <= i < j < |s| ==> s[i] != s[j]
  }

  /** Two live entries of one oid differ in their flags and do not both refuse company. */
  predicate MayShare(a: Info, b: Info) {
    a.flags != b.flags && (Has(a.flags, MULTIPLE_REGISTRATION) || Has(b.flags, MULTIPLE_REGISTRATION))
  }

  ghost predicate Compatible(t: Table, dead: set<Object>) {
    forall c, d :: c in t.byCookie && d in t.byCookie && c != d && t.byCookie[c].oid == t.byCookie[d].oid
                   && t.byCookie[c].obj !in dead && t.byCookie[d].obj !in dead ==>
                     MayShare(t.byCookie[c], t.byCookie[d])
  }

  ghost predicate TableOk(t: Table, dead: set<Object>) {
    Indexed(t) && Compatible(t, dead) && 0 !in t.byCookie && t.name != 0
  }

  /** Is the entry of `now` under `c` an entry of `was`? */
  predicate Kept(was: Table, now: Table, c: nat)
    requires c in now.byCookie
  {
    c in was.byCookie && now.byCookie[c] == was.byCookie[c]
  }

  /** `now` has kept entries of `was`; at most one is new and has this source and serial. */
  ghost predicate Changed(was: Table, now: Table, source: nat, serial: nat) {
    && now.local == was.local && now.name == was.name
    && (forall c :: c in now.byCookie && !Kept(was, now, c) ==>
          now.byCookie[c].source == source && now.byCookie[c].serial == serial)
    && (forall c, d :: c in now.byCookie && d in now.byCookie && !Kept(was, now, c) && !Kept(was, now, d) ==> c == d)
  }

  /** `now` has lost entries of `was`, and nothing else happened to it. */
  ghost predicate Less(was: Table, now: Table) {
    && now.local == was.local && now.name == was.name
    && forall c :: c in now.byCookie ==> c in was.byCookie && now.byCookie[c] == was.byCookie[c]
  }

  ghost predicate Holds(t: Table, c: nat) {
    exists k :: k in t.byCookie && t.byCookie[k].rotCookie == c
  }

  /** Every entry of `up` that `t` registered is backed by an entry of `t` with its cookie. */
  ghost predicate Backed(t: Table, up: Table) {
    forall c :: c in up.byCookie && up.byCookie[c].source == t.name ==> Holds(t, c)
  }

  ghost predicate AllOk(chain: seq<Table>, dead: set<Object>) {
    forall i :: 0 <= i < |chain| ==> TableOk(chain[i], dead)
  }

  /** No table of the chain has left an entry behind in the next one. Only the first table may
      be a process's own. */
  ghost predicate Linked(chain: seq<Table>) {
    && (forall i :: 0 < i < |chain| ==> Backed(chain[i - 1], chain[i]))
    && (forall i :: 0 < i < |chain| ==> !chain[i].local)
  }

  ghost predicate AllLess(was: seq<Table>, now: seq<Table>) {
    |now| == |was| && forall i :: 0 <= i < |was| ==> Less(was[i], now[i])
  }

  /** The source that table `i` sees in a call that comes to the chain from `source`. */
  function SourceAt(chain: seq<Table>, i: nat, source: nat): nat
    requires i < |chain|
  {
    if i == 0 then source else chain[i - 1].name
  }

  /** Every table changed at most as one registration changes it. */
  ghost predicate AllChanged(was: seq<Table>, now: seq<Table>, source: nat, serial: nat) {
    |now| == |was|
    && forall i :: 0 <= i < |was| ==> Changed(was[i], now[i], SourceAt(was, i, source), serial)
  }

  lemma {:induction false} RemoveIs(s: seq<nat>, c: nat)
    ensures forall d :: d in Remove(s, c) <==> d in s && d != c
    ensures NoDuplicates(s) ==> NoDuplicates(Remove(s, c))
  {
    if s != [] {
      RemoveIs(s[1..], c);
      var rest := Remove(s[1..], c);
      if NoDuplicates(s) && s[0] != c {
        forall j | 0 <= j < |rest| ensures rest[j] != s[0] {
          assert rest[j] in rest;
          assert rest[j] in s[1..];
          var k :| 0 <= k < |s| - 1 && s[1..][k] == rest[j];
          assert s[k + 1] == rest[j];
        }
      }
    }
  }

  lemma RemovedOk(t: Table, cookie: nat, dead: set<Object>)
    requires cookie in t.byCookie && TableOk(t, dead)
    ensures TableOk(Removed(t, cookie), dead) && Less(t, Removed(t, cookie))
  {
    var r, oid := Removed(t, cookie), t.byCookie[cookie].oid;
    RemoveIs(CookiesOf(t, oid), cookie);
    forall o, c ensures c in CookiesOf(r, o) <==> c in r.byCookie && r.byCookie[c].oid == o {
      assert o != oid ==> CookiesOf(r, o) == CookiesOf(t, o);
    }
    forall o ensures NoDuplicates(CookiesOf(r, o)) {
      assert o != oid ==> CookiesOf(r, o) == CookiesOf(t, o);
    }
  }

  lemma InsertedOk(t: Table, cookie: nat, info: Info, dead: set<Object>)
    requires cookie !in t.byCookie && cookie != 0 && TableOk(t, dead)
    requires forall c :: c in t.byCookie && t.byCookie[c].oid == info.oid && t.byCookie[c].obj !in dead ==>
                           !Conflicts(t.byCookie[c], info.flags)
    ensures TableOk(Inserted(t, cookie, info), dead)
  {
    var r, oid := Inserted(t, cookie, info), info.oid;
    forall o, c ensures c in CookiesOf(r, o) <==> c in r.byCookie && r.byCookie[c].oid == o {
      assert o != oid ==> CookiesOf(r, o) == CookiesOf(t, o);
    }
    forall o ensures NoDuplicates(CookiesOf(r, o)) {
      assert o != oid ==> CookiesOf(r, o) == CookiesOf(t, o);
      assert cookie !in CookiesOf(t, o);
    }
  }

  /** A registration is refused exactly when some live entry conflicts; otherwise the list has
      the dead entries. */
  lemma {:induction false} CheckIs(t: Table, cookies: seq<nat>, flags: Flags, dead: set<Object>)
    ensures Check(t, cookies, flags, dead).None? <==>
            exists c :: c in cookies && c in t.byCookie && t.byCookie[c].obj !in dead && Conflicts(t.byCookie[c], flags)
    ensures Check(t, cookies, flags, dead).Some? ==>
              forall c :: c in Check(t, cookies, flags, dead).value <==>
                          c in cookies && c in t.byCookie && t.byCookie[c].obj in dead
    decreases |cookies|
  {
    hide Conflicts;
    if cookies != [] {
      CheckIs(t, cookies[..|cookies| - 1], flags, dead);
      assert cookies == cookies[..|cookies| - 1] + [cookies[|cookies| - 1]];
    }
  }

  // ---- Revoking keeps the chain ----

  lemma {:induction false} RevokeKeeps(chain: seq<Table>, cookie: nat, source: nat, dead: set<Object>)
    requires AllOk(chain, dead) && Linked(chain)
    ensures AllOk(Revoke(chain, cookie, source), dead) && Linked(Revoke(chain, cookie, source))
    ensures AllLess(chain, Revoke(chain, cookie, source))
    ensures chain != [] && MayRevoke(chain[0], cookie, source) ==> Revoke(chain, cookie, source)[0] == Removed(chain[0], cookie)
    ensures chain != [] && !MayRevoke(chain[0], cookie, source) ==> Revoke(chain, cookie, source)[0] == chain[0]
    decreases |chain|
  {
    if chain != [] && MayRevoke(chain[0], cookie, source) {
      var t := chain[0];
      var info := t.byCookie[cookie];
      RemovedOk(t, cookie, dead);
      Tail(chain, dead);
      if info.rotCookie != 0 {
        RevokeKeeps(chain[1..], info.rotCookie, t.name, dead);
      } else {
        LessAll(chain[1..]);
      }
      var r := Revoke(chain, cookie, source);
      if |chain| > 1 {
        BackedAfterRevoke(t, cookie, chain[1], r[1], dead);
      }
      Cons(r[0], r[1..], dead);
      LessCons(chain, r);
    } else {
      LessAll(chain);
    }
  }

  lemma Tail(chain: seq<Table>, dead: set<Object>)
    requires chain != [] && AllOk(chain, dead) && Linked(chain)
    ensures AllOk(chain[1..], dead) && Linked(chain[1..]) && TableOk(chain[0], dead)
    ensures |chain| > 1 ==> Backed(chain[0], chain[1]) && !chain[1].local
  {
    hide TableOk, Backed;
    forall i | 0 < i < |chain[1..]| ensures Backed(chain[1..][i - 1], chain[1..][i]) && !chain[1..][i].local {
      assert chain[1..][i - 1] == chain[i] && chain[1..][i] == chain[i + 1];
      assert Backed(chain[i + 1 - 1], chain[i + 1]);
    }
  }

  lemma Cons(t: Table, up: seq<Table>, dead: set<Object>)
    requires TableOk(t, dead) && AllOk(up, dead) && Linked(up)
    requires up != [] ==> Backed(t, up[0]) && !up[0].local
    ensures AllOk([t] + up, dead) && Linked([t] + up)
  {
    hide TableOk, Backed;
    var chain := [t] + up;
    forall i | 0 < i < |chain| ensures Backed(chain[i - 1], chain[i]) && !chain[i].local {
      if i > 1 {
        assert Backed(up[i - 1 - 1], up[i - 1]);
      }
    }
  }

  lemma LessAll(chain: seq<Table>)
    ensures AllLess(chain, chain)
  {
  }

  lemma LessCons(was: seq<Table>, now: seq<Table>)
    requires |was| == |now| > 0 && Less(was[0], now[0]) && AllLess(was[1..], now[1..])
    ensures AllLess(was, now)
  {
    hide Less;
    forall i | 0 <= i < |was| ensures Less(was[i], now[i]) {
      if i > 0 {
        assert was[i] == was[1..][i - 1] && now[i] == now[1..][i - 1];
      }
    }
  }

  lemma LessTrans(a: seq<Table>, b: seq<Table>, c: seq<Table>)
    requires AllLess(a, b) && AllLess(b, c)
    ensures AllLess(a, c)
  {
    forall i | 0 <= i < |a| ensures Less(a[i], c[i]) {
      assert Less(a[i], b[i]) && Less(b[i], c[i]);
    }
  }

  /** The upstream entry goes with the entry that holds its cookie. */
  lemma BackedAfterRevoke(t: Table, cookie: nat, up: Table, now: Table, dead: set<Object>)
    requires cookie in t.byCookie && Backed(t, up) && !up.local && TableOk(up, dead) && TableOk(t, dead)
    requires var c := t.byCookie[cookie].rotCookie;
             now == if c != 0 && MayRevoke(up, c, t.name) then Removed(up, c) else up
    ensures Backed(Removed(t, cookie), now)
  {
    var r := Removed(t, cookie);
    forall c | c in now.byCookie && now.byCookie[c].source == r.name ensures Holds(r, c) {
      assert Holds(t, c);
      var k :| k in t.byCookie && t.byCookie[k].rotCookie == c;
      assert k in r.byCookie;
    }
  }

  /** Popping a list revokes all of it and nothing else in the table itself. */
  lemma {:induction false} RevokeAllKeeps(chain: seq<Table>, cookies: seq<nat>, dead: set<Object>)
    requires AllOk(chain, dead) && Linked(chain)
    ensures AllOk(RevokeAll(chain, cookies), dead) && Linked(RevokeAll(chain, cookies))
    ensures AllLess(chain, RevokeAll(chain, cookies))
    ensures chain != [] ==> forall c :: c in RevokeAll(chain, cookies)[0].byCookie <==> c in chain[0].byCookie && c !in cookies
    decreases |cookies|
  {
    hide AllOk, Linked, Revoke;
    if cookies != [] {
      var last := cookies[|cookies| - 1];
      var next := Revoke(chain, last, 0);
      RevokeKeeps(chain, last, 0, dead);
      RevokeAllKeeps(next, cookies[..|cookies| - 1], dead);
      LessTrans(chain, next, RevokeAll(chain, cookies));
      assert cookies == cookies[..|cookies| - 1] + [last];
    } else {
      LessAll(chain);
    }
  }

  // ---- Registering keeps the chain ----

  /** The table behind `up[0]`'s entries is `t`, but for the entry `rotCookie`. */
  ghost predicate AlmostBacked(t: Table, up: Table, rotCookie: nat) {
    forall c :: c in up.byCookie && up.byCookie[c].source == t.name && c != rotCookie ==> Holds(t, c)
  }

  /** What a registration promises about the table it is asked of. */
  ghost predicate Entered(was: Table, now: Table, q: Request, cookie: Option<nat>) {
    match cookie
    case None => now == was
    case Some(c) =>
      && c != 0 && c !in was.byCookie && c in now.byCookie
      && (var info := now.byCookie[c];
          Request(info.oid, info.obj, info.flags, info.serial) == q)
      && forall k :: k in now.byCookie && k != c ==> k in was.byCookie && now.byCookie[k] == was.byCookie[k]
  }

  lemma EnterKeeps(chain: seq<Table>, source: nat, q: Request, rotCookie: nat, dead: set<Object>, pick: Pick)
    requires chain != [] && PickOk(pick) && TableOk(chain[0], dead) && (chain[0].local ==> source == 0)
    requires AllOk(chain[1..], dead) && Linked(chain[1..])
    requires |chain| > 1 ==> AlmostBacked(chain[0], chain[1], rotCookie) && !chain[1].local
    ensures var (r, cookie) := Enter(chain, source, q, rotCookie, dead, pick);
            && AllOk(r, dead) && Linked(r) && AllLess(chain[1..], r[1..])
            && Entered(chain[0], r[0], q, cookie) && Changed(chain[0], r[0], source, q.serial)
  {
    var t, up := chain[0], chain[1..];
    var list := Check(t, CookiesOf(t, q.oid), q.flags, dead);
    CheckIs(t, CookiesOf(t, q.oid), q.flags, dead);
    if list.None? || |t.byCookie| >= MAX_COOKIE {
      RollBack(chain, rotCookie, dead);
    } else {
      var cookie := pick(t.byCookie.Keys);
      assert |t.byCookie.Keys| == |t.byCookie|;
      var info := Info(q.oid, q.obj, q.flags, rotCookie, if t.local then 0 else source, q.serial);
      InsertedOk(t, cookie, info, dead);
      EnterInserted(t, up, cookie, info, list.value, dead);
    }
  }

  /** The rollback takes the upstream entry away again. */
  lemma RollBack(chain: seq<Table>, rotCookie: nat, dead: set<Object>)
    requires chain != [] && TableOk(chain[0], dead) && AllOk(chain[1..], dead) && Linked(chain[1..])
    requires |chain| > 1 ==> AlmostBacked(chain[0], chain[1], rotCookie) && !chain[1].local
    ensures var r := if rotCookie != 0 then [chain[0]] + Revoke(chain[1..], rotCookie, chain[0].name) else chain;
            AllOk(r, dead) && Linked(r) && AllLess(chain[1..], r[1..]) && r[0] == chain[0]
  {
    var t, up := chain[0], chain[1..];
    if rotCookie != 0 {
      RevokeKeeps(up, rotCookie, t.name, dead);
      var now := Revoke(up, rotCookie, t.name);
      if up != [] {
        forall c | c in now[0].byCookie && now[0].byCookie[c].source == t.name ensures Holds(t, c) {
          assert Less(up[0], now[0]);
          assert c != rotCookie;
        }
      }
      Cons(t, now, dead);
      assert ([t] + now)[1..] == now;
    } else {
      LessAll(up);
      assert chain == [t] + up;
      Cons(t, up, dead);
    }
  }

  lemma EnterInserted(t: Table, up: seq<Table>, cookie: nat, info: Info, list: seq<nat>, dead: set<Object>)
    requires TableOk(t, dead) && TableOk(Inserted(t, cookie, info), dead) && cookie != 0 && cookie !in t.byCookie
    requires AllOk(up, dead) && Linked(up)
    requires up != [] ==> AlmostBacked(t, up[0], info.rotCookie) && !up[0].local
    requires forall c :: c in list ==> c in t.byCookie
    ensures var r := RevokeAll([Inserted(t, cookie, info)] + up, list);
            && AllOk(r, dead) && Linked(r) && AllLess(up, r[1..])
            && Entered(t, r[0], Request(info.oid, info.obj, info.flags, info.serial), Some(cookie)) && Changed(t, r[0], info.source, info.serial)
  {
    var n := Inserted(t, cookie, info);
    InsertedLinked(t, up, cookie, info, dead);
    RevokeAllKeeps([n] + up, list, dead);
    LessTail([n] + up, RevokeAll([n] + up, list));
    assert ([n] + up)[1..] == up;
  }

  lemma LessTail(was: seq<Table>, now: seq<Table>)
    requires AllLess(was, now) && was != []
    ensures Less(was[0], now[0]) && AllLess(was[1..], now[1..])
  {
    hide Less;
  }

  /** A registration leaves no orphan upstream, whether it succeeds or fails; when it fails, the
      table it was asked of is as before. */
  lemma {:induction false} RegisterKeeps(chain: seq<Table>, source: nat, q: Request, dead: set<Object>, pick: Pick)
    requires chain != [] && PickOk(pick) && AllOk(chain, dead) && Linked(chain) && (chain[0].local ==> source == 0)
    ensures var (r, cookie) := Register(chain, source, q, dead, pick);
            && AllOk(r, dead) && Linked(r)
            && Entered(chain[0], r[0], q, cookie) && AllChanged(chain, r, source, q.serial)
    decreases |chain|
  {
    hide TableOk, Backed, Has, Enter;
    var t := chain[0];
    Tail(chain, dead);
    if q.flags & 0xF == 0 || (GoesUp(t, q.flags) && |chain| == 1 && t.local) {
      LessAll(chain[1..]);
      ChangedCons(chain, chain, source, q.serial);
    } else if !GoesUp(t, q.flags) || |chain| == 1 {
      assert |chain| > 1 ==> AlmostBacked(t, chain[1], 0) by { AlmostFrom(chain); }
      EnterKeeps(chain, source, q, 0, dead, pick);
      ChangedCons(chain, Enter(chain, source, q, 0, dead, pick).0, source, q.serial);
    } else {
      var (up, cookie) := Register(chain[1..], t.name, q, dead, pick);
      RegisterKeeps(chain[1..], t.name, q, dead, pick);
      assert chain == [t] + chain[1..];
      AfterUpstream(t, chain[1..], up, cookie, source, q, dead, pick);
    }
  }

  /** The rest of a registration whose upstream part is done. */
  lemma AfterUpstream(t: Table, was: seq<Table>, up: seq<Table>, upCookie: Option<nat>, source: nat, q: Request,
                      dead: set<Object>, pick: Pick)
    requires TableOk(t, dead) && PickOk(pick) && (t.local ==> source == 0)
    requires AllOk(up, dead) && Linked(up) && AllChanged(was, up, t.name, q.serial)
    requires was != [] && Backed(t, was[0]) && !was[0].local && Entered(was[0], up[0], q, upCookie)
    ensures var (r, cookie) := if upCookie.None? then ([t] + up, None)
                               else Enter([t] + up, source, q, upCookie.value, dead, pick);
            && AllOk(r, dead) && Linked(r)
            && Entered(t, r[0], q, cookie) && AllChanged([t] + was, r, source, q.serial)
  {
    hide TableOk, Backed, Enter, PickOk;
    AlmostAfterRegister(t, was[0], up[0], q, upCookie);
    assert !up[0].local by { assert Changed(was[0], up[0], SourceAt(was, 0, t.name), q.serial); }
    hide Changed, Entered, AlmostBacked, Less;
    if upCookie.None? {
      Cons(t, up, dead);
      SameTable(t, q, source);
      AllChangedCons(t, t, was, up, source, q.serial);
    } else {
      assert ([t] + up)[1..] == up;
      EnterKeeps([t] + up, source, q, upCookie.value, dead, pick);
      var r := Enter([t] + up, source, q, upCookie.value, dead, pick).0;
      ChangedLess(was, up, r[1..], t.name, q.serial);
      AllChangedCons(t, r[0], was, r[1..], source, q.serial);
      assert r == [r[0]] + r[1..];
    }
  }

  lemma SameTable(t: Table, q: Request, source: nat)
    ensures Changed(t, t, source, q.serial) && Entered(t, t, q, None)
  {
  }

  lemma AlmostFrom(chain: seq<Table>)
    requires |chain| > 1 ==> Backed(chain[0], chain[1])
    ensures |chain| > 1 ==> AlmostBacked(chain[0], chain[1], 0)
  {
  }

  lemma AlmostAfterRegister(t: Table, was: Table, now: Table, q: Request, cookie: Option<nat>)
    requires Backed(t, was) && Entered(was, now, q, cookie)
    ensures cookie.None? ==> Backed(t, now)
    ensures cookie.Some? ==> AlmostBacked(t, now, cookie.value)
  {
  }

  lemma ChangedCons(was: seq<Table>, now: seq<Table>, source: nat, serial: nat)
    requires |was| == |now| > 0 && Changed(was[0], now[0], source, serial) && AllLess(was[1..], now[1..])
    ensures AllChanged(was, now, source, serial)
  {
    forall i | 0 <= i < |was| ensures Changed(was[i], now[i], SourceAt(was, i, source), serial) {
      if i > 0 {
        assert Less(was[1..][i - 1], now[1..][i - 1]);
      }
    }
  }

  lemma AllChangedCons(t: Table, n: Table, was: seq<Table>, now: seq<Table>, source: nat, serial: nat)
    requires Changed(t, n, source, serial) && AllChanged(was, now, t.name, serial)
    ensures AllChanged([t] + was, [n] + now, source, serial)
  {
    hide Changed;
    var w, m := [t] + was, [n] + now;
    forall i | 0 <= i < |w| ensures Changed(w[i], m[i], SourceAt(w, i, source), serial) {
      if i > 0 {
        assert Changed(was[i - 1], now[i - 1], SourceAt(was, i - 1, t.name), serial);
      }
    }
  }

  lemma ThenLess(a: Table, b: Table, c: Table, source: nat, serial: nat)
    requires Changed(a, b, source, serial) && Less(b, c)
    ensures Changed(a, c, source, serial)
  {
  }

  lemma ChangedLess(a: seq<Table>, b: seq<Table>, c: seq<Table>, source: nat, serial: nat)
    requires AllChanged(a, b, source, serial) && AllLess(b, c)
    ensures AllChanged(a, c, source, serial)
  {
    hide Changed, Less;
    forall i | 0 <= i < |a| ensures Changed(a[i], c[i], SourceAt(a, i, source), serial) {
      assert Less(b[i], c[i]);
      ThenLess(a[i], b[i], c[i], SourceAt(a, i, source), serial);
    }
  }

  // ---- What a registration leaves upstream ----

  /** The flags that make a table register an object upstream too: any scope beyond its own. */
  function Beyond(t: Table): Flags {
    if t.local then 0xE else 0xC
  }

  lemma GoesUpIs(t: Table, flags: Flags)
    ensures GoesUp(t, flags) <==> flags & Beyond(t) != 0
    ensures flags & 0xF == 0 ==> !GoesUp(t, flags)
  {
    BeyondBits(flags);
  }

  lemma BeyondBits(flags: Flags)
    ensures flags & 0xF & !PROCESS_SCOPE == flags & 0xE && flags & 0xF & !USER_SCOPE == flags & 0xC
    ensures flags & 0xF == 0 ==> flags & 0xE == 0 && flags & 0xC == 0
  {
  }

  /** The entry under `c` is the one that was asked for. */
  predicate IsEntry(t: Table, c: nat, q: Request) {
    c in t.byCookie
    && t.byCookie[c].oid == q.oid && t.byCookie[c].obj == q.obj
    && t.byCookie[c].flags == q.flags && t.byCookie[c].serial == q.serial
  }

  /** A dead entry of the object's id has kept cookie `k` from an earlier registration upstream. */
  predicate Stale(t: Table, oid: Oid, k: nat, dead: set<Object>) {
    exists d <- t.byCookie :: t.byCookie[d].oid == oid && t.byCookie[d].obj in dead && t.byCookie[d].rotCookie == k
  }

  /** A registration that succeeds has gone upstream exactly if there is a table upstream and the
      flags name a scope beyond the table's own; the next table then holds an entry for the
      object under the cookie kept, unless a dead entry has kept the same cookie: its revocation
      takes the new entry away. Without a table upstream, a process's own table refuses. */
  lemma RegisteredUpstream(chain: seq<Table>, source: nat, q: Request, dead: set<Object>, pick: Pick)
    requires chain != [] && PickOk(pick) && AllOk(chain, dead) && Linked(chain) && (chain[0].local ==> source == 0)
    ensures
      var (r, cookie) := Register(chain, source, q, dead, pick);
      cookie.Some? ==>
        IsEntry(r[0], cookie.value, q)
        && var k := r[0].byCookie[cookie.value].rotCookie;
           && (k != 0 <==> |chain| > 1 && q.flags & Beyond(chain[0]) != 0)
           && (k != 0 ==> (IsEntry(r[1], k, q) <==> !Stale(chain[0], q.oid, k, dead)))
    ensures
      |chain| == 1 && chain[0].local && q.flags & Beyond(chain[0]) != 0 ==>
        Register(chain, source, q, dead, pick) == (chain, None)
  {
    GoesUpIs(chain[0], q.flags);
    RegisterKeeps(chain, source, q, dead, pick);
    hide TableOk, Backed, Enter, GoesUp, PickOk;
    var t := chain[0];
    if q.flags & 0xF != 0 && GoesUp(t, q.flags) && |chain| > 1 {
      Tail(chain, dead);
      RegisterKeeps(chain[1..], t.name, q, dead, pick);
      var (up, k) := Register(chain[1..], t.name, q, dead, pick);
      if k.Some? {
        assert Linked(chain) && Backed(chain[0], chain[1]);
        AfterNext(t, chain[1..], up, k.value, source, q, dead, pick);
      }
    } else if q.flags & 0xF != 0 && !(|chain| == 1 && t.local && GoesUp(t, q.flags)) {
      assert |chain| > 1 ==> AlmostBacked(t, chain[1], 0) by { AlmostFrom(chain); }
      Tail(chain, dead);
      EnteredUp(chain, source, q, 0, dead, pick);
    }
  }

  /** The part of a registration that comes after a successful one upstream. */
  lemma AfterNext(t: Table, was: seq<Table>, up: seq<Table>, k: nat, source: nat, q: Request, dead: set<Object>, pick: Pick)
    requires TableOk(t, dead) && PickOk(pick) && (t.local ==> source == 0)
    requires AllOk(up, dead) && Linked(up) && AllChanged(was, up, t.name, q.serial)
    requires was != [] && Backed(t, was[0]) && !was[0].local && Entered(was[0], up[0], q, Some(k))
    ensures
      var (r, cookie) := Enter([t] + up, source, q, k, dead, pick);
      cookie.Some? ==>
        cookie.value in r[0].byCookie && r[0].byCookie[cookie.value].rotCookie == k
        && (IsEntry(r[1], k, q) <==> !Stale(t, q.oid, k, dead))
  {
    AlmostAfterRegister(t, was[0], up[0], q, Some(k));
    assert Changed(was[0], up[0], SourceAt(was, 0, t.name), q.serial);
    assert k in up[0].byCookie && !Kept(was[0], up[0], k);
    hide TableOk, Backed, AlmostBacked, Changed, PickOk, Enter;
    assert ([t] + up)[1..] == up;
    EnteredUp([t] + up, source, q, k, dead, pick);
  }

  /** What the revocation of dead entries leaves of the next table's entries for this one. */
  lemma EnteredUp(chain: seq<Table>, source: nat, q: Request, k: nat, dead: set<Object>, pick: Pick)
    requires chain != [] && PickOk(pick) && TableOk(chain[0], dead)
    requires AllOk(chain[1..], dead) && Linked(chain[1..])
    requires |chain| > 1 ==> AlmostBacked(chain[0], chain[1], k) && !chain[1].local
    ensures
      var (r, cookie) := Enter(chain, source, q, k, dead, pick);
      cookie.Some? ==>
        cookie.value in r[0].byCookie && r[0].byCookie[cookie.value].rotCookie == k
        && (|chain| > 1 && k in chain[1].byCookie && chain[1].byCookie[k].source == chain[0].name ==>
              if Stale(chain[0], q.oid, k, dead) then k !in r[1].byCookie
              else k in r[1].byCookie && r[1].byCookie[k] == chain[1].byCookie[k])
  {
    var t, up := chain[0], chain[1..];
    var list := Check(t, CookiesOf(t, q.oid), q.flags, dead);
    CheckIs(t, CookiesOf(t, q.oid), q.flags, dead);
    if list.Some? && |t.byCookie| < MAX_COOKIE {
      var cookie := pick(t.byCookie.Keys);
      assert |t.byCookie.Keys| == |t.byCookie|;
      var info := Info(q.oid, q.obj, q.flags, k, if t.local then 0 else source, q.serial);
      InsertedOk(t, cookie, info, dead);
      InsertedLinked(t, up, cookie, info, dead);
      var n := Inserted(t, cookie, info);
      RevokeAllKeeps([n] + up, list.value, dead);
      var r := RevokeAll([n] + up, list.value);
      assert Less(n, r[0]) && cookie in r[0].byCookie;
      if up != [] && k in up[0].byCookie && up[0].byCookie[k].source == t.name {
        RevokedUp([n] + up, list.value, k, dead);
        assert Less(([n] + up)[1], r[1]);
        assert Stale(t, q.oid, k, dead) <==> exists d <- list.value :: n.byCookie[d].rotCookie == k;
      }
    }
  }

  lemma InsertedLinked(t: Table, up: seq<Table>, cookie: nat, info: Info, dead: set<Object>)
    requires TableOk(Inserted(t, cookie, info), dead) && cookie !in t.byCookie && AllOk(up, dead) && Linked(up)
    requires up != [] ==> AlmostBacked(t, up[0], info.rotCookie) && !up[0].local
    ensures AllOk([Inserted(t, cookie, info)] + up, dead) && Linked([Inserted(t, cookie, info)] + up)
  {
    var n := Inserted(t, cookie, info);
    if up != [] {
      forall c | c in up[0].byCookie && up[0].byCookie[c].source == n.name ensures Holds(n, c) {
        if c == info.rotCookie {
          assert n.byCookie[cookie].rotCookie == c;
        } else {
          assert Holds(t, c);
          var k :| k in t.byCookie && t.byCookie[k].rotCookie == c;
          assert n.byCookie[k].rotCookie == c;
        }
      }
    }
    Cons(n, up, dead);
  }

  /** An entry that the first table made in the next one stays exactly if no entry revoked has
      its cookie. */
  lemma {:induction false} RevokedUp(chain: seq<Table>, cookies: seq<nat>, k: nat, dead: set<Object>)
    requires AllOk(chain, dead) && Linked(chain) && |chain| > 1
    requires k in chain[1].byCookie && chain[1].byCookie[k].source == chain[0].name
    ensures
      k in RevokeAll(chain, cookies)[1].byCookie <==>
      forall d <- cookies :: d in chain[0].byCookie ==> chain[0].byCookie[d].rotCookie != k
    decreases |cookies|
  {
    if cookies != [] {
      var last, rest := cookies[|cookies| - 1], cookies[..|cookies| - 1];
      var next := Revoke(chain, last, 0);
      RevokeKeeps(chain, last, 0, dead);
      RevokeAllKeeps(next, rest, dead);
      NextAfterRevoke(chain, last, k, dead);
      assert cookies == rest + [last];
      assert Less(chain[0], next[0]) && Less(chain[1], next[1]) && Less(next[1], RevokeAll(next, rest)[1]);
      hide AllOk, Linked, Revoke, AllLess;
      if k in next[1].byCookie {
        RevokedUp(next, rest, k, dead);
      }
    }
  }

  lemma NextAfterRevoke(chain: seq<Table>, cookie: nat, k: nat, dead: set<Object>)
    requires AllOk(chain, dead) && Linked(chain) && |chain| > 1
    requires k in chain[1].byCookie && chain[1].byCookie[k].source == chain[0].name
    ensures
      var r := Revoke(chain, cookie, 0);
      && (k in r[1].byCookie <==> cookie in chain[0].byCookie ==> chain[0].byCookie[cookie].rotCookie != k)
      && forall d :: d in r[0].byCookie <==> d in chain[0].byCookie && d != cookie
  {
    Tail(chain, dead);
    assert TableOk(chain[1], dead);
    if cookie in chain[0].byCookie {
      RevokeKeeps(chain[1..], chain[0].byCookie[cookie].rotCookie, chain[0].name, dead);
    }
  }

  // ---- Getting keeps the chain ----

  /** `hit` is a live entry of some table of the chain, and gone from it if single-use. */
  ghost predicate Served(chain: seq<Table>, now: seq<Table>, hit: Hit, dead: set<Object>)
    requires |now| == |chain|
  {
    exists i, c :: 0 <= i < |chain| && ServedAt(chain[i], now[i], c, hit, dead)
  }

  ghost predicate ServedAt(was: Table, now: Table, c: nat, hit: Hit, dead: set<Object>) {
    && was.name == hit.table && c in was.byCookie && was.byCookie[c].serial == hit.serial
    && was.byCookie[c].obj == hit.obj && hit.obj !in dead
    && hit.single == Has(was.byCookie[c].flags, SINGLE_USE) && (hit.single ==> c !in now.byCookie)
  }

  /** A scan hits the first live entry that the search allows, unless there is none; its list
      has only dead ones. */
  lemma {:induction false} ScanIs(t: Table, cookies: seq<nat>, search: Flags, dead: set<Object>)
    ensures var f := Scan(t, cookies, search, dead);
            && (f.hit.None? ==> forall c :: c in cookies ==> !Offered(t, c, search, dead))
            && (f.hit.Some? ==> Offered(t, f.hit.value, search, dead) && FirstOffered(t, cookies, search, dead, f.hit.value))
            && forall c :: c in f.list ==> c in cookies && c in t.byCookie && t.byCookie[c].obj in dead
    decreases |cookies|
  {
    hide Offered;
    if cookies != [] {
      var rest, last := cookies[..|cookies| - 1], cookies[|cookies| - 1];
      ScanIs(t, rest, search, dead);
      assert cookies == rest + [last];
      OfferedIs(t, last, search, dead);
      var f := Scan(t, cookies, search, dead);
      if f.hit.Some? {
        var i := |rest|;
        if Scan(t, rest, search, dead).hit.Some? {
          i := IndexOf(t, rest, search, dead, f.hit.value);
        }
        assert cookies[i] == f.hit.value && forall j :: 0 <= j < i ==> cookies[j] in rest && cookies[j] == rest[j];
      }
    }
  }

  lemma OfferedIs(t: Table, c: nat, search: Flags, dead: set<Object>)
    ensures Offered(t, c, search, dead) <==>
            c in t.byCookie && (t.local || Has(t.byCookie[c].flags, search)) && t.byCookie[c].obj !in dead
  {
  }

  ghost predicate FirstOffered(t: Table, cookies: seq<nat>, search: Flags, dead: set<Object>, c: nat) {
    exists i :: 0 <= i < |cookies| && cookies[i] == c && forall j :: 0 <= j < i ==> !Offered(t, cookies[j], search, dead)
  }

  lemma IndexOf(t: Table, cookies: seq<nat>, search: Flags, dead: set<Object>, c: nat) returns (i: nat)
    requires FirstOffered(t, cookies, search, dead, c)
    ensures i < |cookies| && cookies[i] == c && forall j :: 0 <= j < i ==> !Offered(t, cookies[j], search, dead)
  {
    i :| 0 <= i < |cookies| && cookies[i] == c && forall j :: 0 <= j < i ==> !Offered(t, cookies[j], search, dead);
  }

  predicate Offered(t: Table, c: nat, search: Flags, dead: set<Object>) {
    c in t.byCookie && (t.local || Has(t.byCookie[c].flags, search)) && t.byCookie[c].obj !in dead
  }

  lemma {:induction false} GetKeeps(chain: seq<Table>, oid: Oid, far: nat -> bool, dead: set<Object>, supports: set<Object>)
    requires AllOk(chain, dead) && Linked(chain)
    ensures var (r, hit) := Get(chain, oid, far, dead, supports);
            && AllOk(r, dead) && Linked(r) && AllLess(chain, r)
            && (hit.Some? ==> Served(chain, r, hit.value, dead) && hit.value.obj in supports)
    decreases |chain|
  {
    hide Has;
    if chain != [] {
      var t := chain[0];
      var search := Search(far(t.name), |chain| == 1);
      var f := Scan(t, CookiesOf(t, oid), search, dead);
      ScanIs(t, CookiesOf(t, oid), search, dead);
      if f.hit.None? {
        var now := RevokeAll(chain, f.list);
        RevokeAllKeeps(chain, f.list, dead);
        Tail(now, dead);
        GetKeeps(now[1..], oid, far, dead, supports);
        GetPassed(chain, now, oid, far, dead, supports);
      } else {
        LessAll(chain);
        var info := t.byCookie[f.hit.value];
        if info.obj in supports {
          var list := if Has(info.flags, SINGLE_USE) then f.list + [f.hit.value] else f.list;
          RevokeAllKeeps(chain, list, dead);
          assert ServedAt(t, RevokeAll(chain, list)[0], f.hit.value, Get(chain, oid, far, dead, supports).1.value, dead);
        }
      }
    }
  }

  /** The call goes on upstream from `now`. */
  lemma GetPassed(chain: seq<Table>, now: seq<Table>, oid: Oid, far: nat -> bool, dead: set<Object>, supports: set<Object>)
    requires chain != [] && AllLess(chain, now) && AllOk(now, dead) && Linked(now)
    requires var (up, hit) := Get(now[1..], oid, far, dead, supports);
             && AllOk(up, dead) && Linked(up) && AllLess(now[1..], up)
             && (hit.Some? ==> Served(now[1..], up, hit.value, dead))
    ensures var (up, hit) := Get(now[1..], oid, far, dead, supports);
            var r := [now[0]] + up;
            && AllOk(r, dead) && Linked(r) && AllLess(chain, r)
            && (hit.Some? ==> Served(chain, r, hit.value, dead))
  {
    hide Get, TableOk;
    var (up, hit) := Get(now[1..], oid, far, dead, supports);
    var r := [now[0]] + up;
    Tail(now, dead);
    if up != [] {
      assert Less(now[1], up[0]) by { assert Less(now[1..][0], up[0]); }
      BackedLess(now[0], now[1], up[0]);
    }
    Cons(now[0], up, dead);
    assert r[1..] == up;
    LessAll(now);
    LessCons(now, r);
    LessTrans(chain, now, r);
    if hit.Some? {
      var i, c :| 0 <= i < |now[1..]| && ServedAt(now[1..][i], up[i], c, hit.value, dead);
      assert Less(chain[i + 1], now[i + 1]);
      assert ServedAt(chain[i + 1], r[i + 1], c, hit.value, dead);
    }
  }

  lemma BackedLess(t: Table, was: Table, now: Table)
    requires Backed(t, was) && Less(was, now)
    ensures Backed(t, now)
  {
  }
}
