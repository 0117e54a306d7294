/** What the calls on a chain of running object tables do, in terms of the entries and their
    flags (RunningObjectTable.cpp:82-255, UserROT.cpp:44-227). */
module RunningObjectCalls {
  import opened Options
  import opened RunningObjects

  // ---- RegisterObject ----

  /** A live entry of the same id keeps others out: it allows no second registration, or has the
      same flags. */
  ghost predicate KeepsOut(t: Table, q: Request, dead: set<Object>) {
    exists c <- t.byCookie ::
      var info := t.byCookie[c];
      info.oid == q.oid && info.obj !in dead && (info.flags & 0x200 == 0 || info.flags == q.flags)
  }

  /** A registration is refused exactly if it names no scope, if it needs a table upstream that
      is missing or refuses, if a live entry keeps it out, or if the table is full. */
  lemma RegisterRefuses(chain: seq<Table>, source: nat, q: Request, dead: set<Object>, pick: Pick)
    requires chain != [] && AllOk(chain, dead)
    ensures
      var t := chain[0];
      var beyond := q.flags & Beyond(t) != 0;
      Register(chain, source, q, dead, pick).1.None? <==>
      || q.flags & 0xF == 0
      || (beyond && |chain| == 1 && t.local)
      || (beyond && |chain| > 1 && Register(chain[1..], t.name, q, dead, pick).1.None?)
      || KeepsOut(t, q, dead)
      || |t.byCookie| >= 0xFFFF_FFFF
  {
    var t := chain[0];
    GoesUpIs(t, q.flags);
    EnterRefuses(t, q, dead);
    hide GoesUp, KeepsOut, Check;
    if |chain| > 1 {
      var (up, cookie) := Register(chain[1..], t.name, q, dead, pick);
      assert ([t] + up)[0] == t;
    }
  }

  lemma EnterRefuses(t: Table, q: Request, dead: set<Object>)
    requires TableOk(t, dead)
    ensures Check(t, CookiesOf(t, q.oid), q.flags, dead).None? <==> KeepsOut(t, q, dead)
  {
    CheckIs(t, CookiesOf(t, q.oid), q.flags, dead);
    hide Check;
    if KeepsOut(t, q, dead) {
      var c :| c in t.byCookie && t.byCookie[c].oid == q.oid && t.byCookie[c].obj !in dead
               && (t.byCookie[c].flags & 0x200 == 0 || t.byCookie[c].flags == q.flags);
      assert c in CookiesOf(t, q.oid) && Conflicts(t.byCookie[c], q.flags);
    }
  }

  // ---- RevokeObject ----

  /** An entry is revoked unless it is not there, or belongs to another source; its upstream
      entry is then revoked too, in this table's name. */
  lemma RevokeIs(chain: seq<Table>, cookie: nat, source: nat)
    requires chain != []
    ensures
      var t := chain[0];
      var r := Revoke(chain, cookie, source);
      if cookie !in t.byCookie || (!t.local && source != 0 && t.byCookie[cookie].source != source) then r == chain
      else
        r[0].byCookie == t.byCookie - {cookie}
        && r[1..] == if t.byCookie[cookie].rotCookie == 0 then chain[1..]
                     else Revoke(chain[1..], t.byCookie[cookie].rotCookie, t.name)
  {
  }

  // ---- GetObject ----

  /** A table of another process shows only what was registered for the caller's scope. */
  predicate Visible(t: Table, c: nat, mask: Flags) {
    c in t.byCookie && (t.local || t.byCookie[c].flags & mask != 0)
  }

  predicate Serves(t: Table, c: nat, mask: Flags, dead: set<Object>) {
    Visible(t, c, mask) && t.byCookie[c].obj !in dead
  }

  /** Place `i` has the first visible live entry, or is the end. */
  predicate FirstAt(t: Table, cookies: seq<nat>, mask: Flags, dead: set<Object>, i: nat) {
    && i <= |cookies| && (i < |cookies| ==> Serves(t, cookies[i], mask, dead))
    && forall j :: 0 <= j < i ==> !Serves(t, cookies[j], mask, dead)
  }

  /** A visible dead entry stands before place `i`. */
  ghost predicate DeadBefore(t: Table, cookies: seq<nat>, mask: Flags, dead: set<Object>, i: nat, c: nat) {
    exists j :: 0 <= j < i && j < |cookies| && cookies[j] == c && Visible(t, c, mask) && t.byCookie[c].obj in dead
  }

  lemma {:induction false} ScanFinds(t: Table, cookies: seq<nat>, mask: Flags, dead: set<Object>, i: nat)
    requires FirstAt(t, cookies, mask, dead, i)
    ensures
      var f := Scan(t, cookies, mask, dead);
      f.hit == (if i < |cookies| then Some(cookies[i]) else None)
      && forall c :: c in f.list <==> DeadBefore(t, cookies, mask, dead, i, c)
    decreases |cookies|
  {
    if cookies != [] {
      var n := |cookies| - 1;
      var k := if i <= n then i else n;
      ScanFinds(t, cookies[..n], mask, dead, k);
      ScanStep(t, cookies, mask, dead);
      hide Scan, Visible;
      forall c ensures c in Scan(t, cookies, mask, dead).list <==> DeadBefore(t, cookies, mask, dead, i, c) {
        DeadStep(t, cookies, mask, dead, i, c);
      }
    }
  }

  /** The last entry of the list, in terms of what is visible. */
  lemma ScanStep(t: Table, cookies: seq<nat>, mask: Flags, dead: set<Object>)
    requires cookies != []
    ensures
      var last := cookies[|cookies| - 1];
      var before := Scan(t, cookies[..|cookies| - 1], mask, dead);
      Scan(t, cookies, mask, dead) ==
      if before.hit.Some? || !Visible(t, last, mask) then before
      else if t.byCookie[last].obj in dead then before.(list := before.list + [last])
      else before.(hit := Some(last))
  {
  }

  lemma DeadStep(t: Table, cookies: seq<nat>, mask: Flags, dead: set<Object>, i: nat, c: nat)
    requires cookies != [] && i <= |cookies|
    ensures
      var n := |cookies| - 1;
      DeadBefore(t, cookies, mask, dead, i, c) <==>
      DeadBefore(t, cookies[..n], mask, dead, if i <= n then i else n, c)
      || (i > n && cookies[n] == c && Visible(t, c, mask) && t.byCookie[c].obj in dead)
  {
    hide Visible;
    var n := |cookies| - 1;
    assert forall j | 0 <= j < n :: cookies[..n][j] == cookies[j];
  }

  /** What a `GetObject` does to the first table, and what it is served. The visible dead entries
      before the first visible live one are revoked. That one is served, and revoked if it is for
      single use, when it supports the interface; when it does not, the call fails and nothing is
      revoked. With no such entry the next table is asked. Only the last table of the chain shows
      to other machines what is public outside. */
  lemma GetServes(chain: seq<Table>, oid: Oid, far: nat -> bool, dead: set<Object>, supports: set<Object>, i: nat)
    requires chain != [] && AllOk(chain, dead) && Linked(chain)
    requires var mask := if far(chain[0].name) && |chain| == 1 then 0xF else 0x7;
             FirstAt(chain[0], CookiesOf(chain[0], oid), mask, dead, i)
    ensures
      var t, cookies := chain[0], CookiesOf(chain[0], oid);
      var mask := if far(t.name) && |chain| == 1 then 0xF else 0x7;
      var (r, hit) := Get(chain, oid, far, dead, supports);
      if i < |cookies| then
        var info := t.byCookie[cookies[i]];
        var single := info.flags & 0x100 != 0;
        if info.obj !in supports then r == chain && hit == None
        else
          hit == Some(Hit(t.name, info.serial, info.obj, single))
          && forall c :: c in r[0].byCookie <==>
               c in t.byCookie && !DeadBefore(t, cookies, mask, dead, i, c) && !(single && c == cookies[i])
      else
        (forall c :: c in r[0].byCookie <==> c in t.byCookie && !DeadBefore(t, cookies, mask, dead, i, c))
        && exists up: seq<Table> :: |up| == |chain| - 1 && AllLess(chain[1..], up)
             && r[1..] == Get(up, oid, far, dead, supports).0 && hit == Get(up, oid, far, dead, supports).1
  {
    var t, cookies := chain[0], CookiesOf(chain[0], oid);
    var mask: Flags := if far(t.name) && |chain| == 1 then 0xF else 0x7;
    ScanFinds(t, cookies, mask, dead, i);
    assert Search(far(t.name), |chain| == 1) == mask;
    hide DeadBefore, FirstAt, Linked, TableOk;
    var f := Scan(t, cookies, mask, dead);
    if i < |cookies| {
      var info := t.byCookie[cookies[i]];
      SingleBit(info.flags);
      RevokeAllKeeps(chain, if Has(info.flags, SINGLE_USE) then f.list + [cookies[i]] else f.list, dead);
    } else {
      RevokeAllKeeps(chain, f.list, dead);
      LessTail(chain, RevokeAll(chain, f.list));
      var up := RevokeAll(chain, f.list)[1..];
      assert AllLess(chain[1..], up);
    }
  }

  lemma SingleBit(flags: Flags)
    ensures Has(flags, SINGLE_USE) <==> flags & 0x100 != 0
  {
  }
}
