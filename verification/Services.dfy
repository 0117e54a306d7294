/** Collecting the services to start: `get_service_dependencies` and `enum_services`
    (RootServices.cpp:53-97, 99-129). */
module Services {

  /** What the registry has under /System/Services/<name>: a key and the names of the
      dependencies in the order they are popped, or a dependency list that cannot be read. */
  datatype Service = Service(key: int, deps: seq<string>) | Unreadable(key: int)

  type Registry = map<string, Service>

  /** The subkeys of /System/Services, if the key can be read. */
  datatype Roots = NotFound | Error | Subkeys(names: seq<string>)

  predicate Good(reg: Registry, name: string) {
    name in reg && reg[name].Service?
  }

  function Deps(reg: Registry, name: string): seq<string> {
    if Good(reg, name) then reg[name].deps else []
  }

  // ---- Reachability ----

  /** Each name of the path depends on the next. */
  ghost predicate Path(reg: Registry, path: seq<string>) {
    path != [] && forall i :: 0 <= i < |path| - 1 ==> path[i + 1] in Deps(reg, path[i])
  }

  ghost predicate Reaches(reg: Registry, a: string, b: string) {
    exists path :: Path(reg, path) && path[0] == a && path[|path| - 1] == b
  }

  /** Reachable from the services that the registry lists. */
  ghost predicate Needed(reg: Registry, roots: seq<string>, name: string) {
    exists root :: root in roots && Reaches(reg, root, name)
  }

  lemma ReachesItself(reg: Registry, a: string)
    ensures Reaches(reg, a, a)
  {
    assert Path(reg, [a]);
  }

  lemma ReachesThrough(reg: Registry, a: string, dep: string, b: string)
    requires dep in Deps(reg, a) && Reaches(reg, dep, b)
    ensures Reaches(reg, a, b)
  {
    var path :| Path(reg, path) && path[0] == dep && path[|path| - 1] == b;
    var longer := [a] + path;
    forall i | 0 <= i < |longer| - 1 ensures longer[i + 1] in Deps(reg, longer[i]) {
      if i > 0 {
        assert path[i - 1 + 1] in Deps(reg, path[i - 1]);
      }
    }
    assert Path(reg, longer);
  }

  /** A service reaches itself, and what the services named in its entry reach, and no more. */
  lemma ReachesIff(reg: Registry, a: string, b: string)
    ensures Reaches(reg, a, b) <==>
            a == b || (a in reg && reg[a].Service? && exists d <- reg[a].deps :: Reaches(reg, d, b))
  {
    if a == b {
      ReachesItself(reg, a);
    } else if Reaches(reg, a, b) {
      var path :| Path(reg, path) && path[0] == a && path[|path| - 1] == b;
      var rest := path[1..];
      forall i | 0 <= i < |rest| - 1 ensures rest[i + 1] in Deps(reg, rest[i]) {
        assert path[i + 1 + 1] in Deps(reg, path[i + 1]);
      }
      assert path[0 + 1] in Deps(reg, path[0]);
      assert Path(reg, rest) && Reaches(reg, path[1], b);
    } else if a in reg && reg[a].Service? && exists d <- reg[a].deps :: Reaches(reg, d, b) {
      var d :| d in reg[a].deps && Reaches(reg, d, b);
      ReachesThrough(reg, a, d, b);
    }
  }

  // ---- The queues ----

  predicate NoDuplicates(s: seq<string>) {
    forall i, j :: 0 <= i < j < |s| ==> s[i] != s[j]
  }

  /** The queues go together: each name once, with its key at the same place. */
  predicate Paired(reg: Registry, names: seq<string>, keys: seq<int>) {
    && NoDuplicates(names) && |keys| == |names|
    && forall i :: 0 <= i < |names| ==> names[i] in reg && keys[i] == reg[names[i]].key
  }

  /** Every name from place `start` on is good, and its dependencies are in the queue. */
  ghost predicate Closed(reg: Registry, names: seq<string>, start: nat) {
    forall i :: start <= i < |names| ==> Good(reg, names[i]) && forall d <- Deps(reg, names[i]) :: d in names
  }

  ghost function Unseen(reg: Registry, names: seq<string>): set<string> {
    set n | n in reg && n !in names
  }

  lemma FewerUnseen(reg: Registry, names: seq<string>, more: seq<string>)
    requires names <= more
    ensures |Unseen(reg, more)| <= |Unseen(reg, names)|
    ensures (exists n :: n in reg && n in more && n !in names) ==> |Unseen(reg, more)| < |Unseen(reg, names)|
  {
    forall n | n in names ensures n in more {
      var i :| 0 <= i < |names| && names[i] == n;
      assert more[i] == n;
    }
    var a, b := Unseen(reg, more), Unseen(reg, names);
    assert a <= b && b == a + (b - a);
    if n :| n in reg && n in more && n !in names {
      assert n in b - a;
    }
  }

  class ServiceQueues {
    var names: seq<string>
    var keys: seq<int>

    constructor ()
      ensures names == [] && keys == []
    {
      names, keys := [], [];
    }

    /** The name goes in before its dependencies are visited, so a cycle ends. */
    method GetServiceDependencies(reg: Registry, name: string) returns (ok: bool)
      requires name !in names && Paired(reg, names, keys)
      modifies this
      ensures Paired(reg, names, keys) && old(names) <= names && old(keys) <= keys
      ensures forall i :: |old(names)| <= i < |names| ==> Reaches(reg, name, names[i])
      ensures ok ==> name in names && Closed(reg, names, |old(names)|)
      ensures !ok ==> exists bad :: Reaches(reg, name, bad) && !Good(reg, bad)
      decreases |Unseen(reg, names)|
    {
      ghost var start := |names|;
      ReachesItself(reg, name);
      if name !in reg {
        return false;
      }
      names, keys := names + [name], keys + [reg[name].key];
      if reg[name].Unreadable? {
        return false;
      }
      FewerUnseen(reg, old(names), names);
      var deps := reg[name].deps;
      var i := 0;
      while i < |deps|
        invariant i <= |deps|
        invariant Paired(reg, names, keys) && old(names) + [name] <= names && old(keys) <= keys
        invariant |Unseen(reg, names)| < |Unseen(reg, old(names))|
        invariant forall k :: start <= k < |names| ==> Reaches(reg, name, names[k])
        invariant Closed(reg, names, start + 1)
        invariant forall k :: 0 <= k < i ==> deps[k] in names
      {
        var dep := deps[i];
        if dep !in names {
          ghost var before := names;
          var found := GetServiceDependencies(reg, dep);
          if !found {
            ghost var bad :| Reaches(reg, dep, bad) && !Good(reg, bad);
            ReachesThrough(reg, name, dep, bad);
            ReachAll(reg, name, dep, before, names, start);
            return false;
          }
          ReachAll(reg, name, dep, before, names, start);
          ClosedAppend(reg, before, names, start + 1);
          FewerUnseen(reg, before, names);
          StillIn(before, names);
        }
        i := i + 1;
      }
      ok := true;
      assert names[start] == name;
    }

    method EnumServices(reg: Registry, roots: Roots) returns (ok: bool)
      requires names == [] && keys == []
      modifies this
      ensures Paired(reg, names, keys)
      ensures ok == (roots.NotFound? || (roots.Subkeys? && forall n :: Needed(reg, roots.names, n) ==> Good(reg, n)))
      ensures ok && roots.Subkeys? ==> forall n :: n in names <==> Needed(reg, roots.names, n)
      ensures !roots.Subkeys? ==> names == []
    {
      match roots {
        case NotFound => return true;
        case Error => return false;
        case Subkeys(_) =>
      }
      var i := 0;
      while i < |roots.names|
        invariant i <= |roots.names|
        invariant Paired(reg, names, keys) && Closed(reg, names, 0)
        invariant forall k :: 0 <= k < |names| ==> Needed(reg, roots.names, names[k])
        invariant forall k :: 0 <= k < i ==> roots.names[k] in names
      {
        var root := roots.names[i];
        if root !in names {
          ghost var before := names;
          var found := GetServiceDependencies(reg, root);
          forall k | 0 <= k < |names| ensures Needed(reg, roots.names, names[k]) {
            if k < |before| {
              assert names[k] == before[k];
            }
          }
          if !found {
            ghost var bad :| Reaches(reg, root, bad) && !Good(reg, bad);
            assert Needed(reg, roots.names, bad);
            return false;
          }
          ClosedAppend(reg, before, names, 0);
          StillIn(before, names);
        }
        i := i + 1;
      }
      ClosedIsNeeded(reg, roots.names, names);
      ok := true;
    }
  }

  lemma StillIn(before: seq<string>, names: seq<string>)
    requires before <= names
    ensures forall n :: n in before ==> n in names
  {
  }

  lemma ReachAll(reg: Registry, name: string, dep: string, before: seq<string>, names: seq<string>, start: nat)
    requires dep in Deps(reg, name) && before <= names
    requires forall k :: start <= k < |before| ==> Reaches(reg, name, before[k])
    requires forall k :: |before| <= k < |names| ==> Reaches(reg, dep, names[k])
    ensures forall k :: start <= k < |names| ==> Reaches(reg, name, names[k])
  {
    hide Reaches;
    forall k | start <= k < |names| ensures Reaches(reg, name, names[k]) {
      if k < |before| {
        assert names[k] == before[k];
      } else {
        ReachesThrough(reg, name, dep, names[k]);
      }
    }
  }

  lemma ClosedAppend(reg: Registry, before: seq<string>, names: seq<string>, start: nat)
    requires before <= names && Closed(reg, before, start) && Closed(reg, names, |before|)
    ensures Closed(reg, names, start)
  {
    forall i | start <= i < |names| ensures Good(reg, names[i]) && forall d <- Deps(reg, names[i]) :: d in names {
      if i < |before| {
        assert names[i] == before[i];
      }
    }
  }

  lemma {:induction false} PathStays(reg: Registry, names: seq<string>, path: seq<string>, i: nat)
    requires Closed(reg, names, 0) && Path(reg, path) && path[0] in names && i < |path|
    ensures path[i] in names
  {
    if i > 0 {
      PathStays(reg, names, path, i - 1);
      assert path[i - 1 + 1] in Deps(reg, path[i - 1]);
    }
  }

  /** A queue that is closed and has all roots holds everything needed, all of it good. */
  lemma ClosedIsNeeded(reg: Registry, roots: seq<string>, names: seq<string>)
    requires Closed(reg, names, 0) && forall k :: 0 <= k < |roots| ==> roots[k] in names
    ensures forall n :: Needed(reg, roots, n) ==> n in names && Good(reg, n)
  {
    forall n | Needed(reg, roots, n) ensures n in names && Good(reg, n) {
      var root :| root in roots && Reaches(reg, root, n);
      var path :| Path(reg, path) && path[0] == root && path[|path| - 1] == n;
      PathStays(reg, names, path, |path| - 1);
    }
  }
}
