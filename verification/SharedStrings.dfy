/** `string_t`: handles on reference-counted, copy-on-write nodes (Types.cpp), refining
    plain string values. */
module SharedStrings {
  import opened Options

  /** sizeof(m_local_buffer) */
  const LOCAL: nat := 24

  /** The union `m_u`: text kept inside the node, or a pointer to allocated memory. */
  datatype Store = Local(chars: seq<char>) | Allocated(chars: seq<char>)

  /** The fields of a `StringNode`. */
  datatype NodeValue = NodeValue(refcount: nat, len: nat, store: Store) {

    /** The length decides which member of the union is in use; the text is followed by a NUL. */
    ghost predicate Ok() {
      && (store.Local? <==> len < LOCAL)
      && |store.chars| == (if len < LOCAL then LOCAL else len + 1)
      && store.chars[len] == '\0'
    }

    function Text(): string
      requires Ok()
    {
      store.chars[..len]
    }
  }

  /** `vec` with `src` copied over it at `at`. */
  function Overwrite(vec: seq<char>, at: nat, src: seq<char>): (r: seq<char>)
    requires at + |src| <= |vec|
    ensures |r| == |vec|
  {
    vec[..at] + src + vec[at + |src|..]
  }

  /** The part of a buffer that `strlen` sees. */
  function CString(s: seq<char>): seq<char> {
    if s == [] || s[0] == '\0' then [] else [s[0]] + CString(s[1..])
  }

  /** What a handle made by `OOCore_string_t__const_ctor` reads. */
  function LiteralText(sz: seq<char>, len: nat): string {
    if len == 0 then "" else CString(sz)
  }

  /** No NUL stands before `n`, and one stands there unless the buffer ends. */
  predicate EndsAt(sz: seq<char>, n: nat)
    requires n <= |sz|
  {
    (forall i :: 0 <= i < n ==> sz[i] != '\0') && (n < |sz| ==> sz[n] == '\0')
  }

  lemma {:induction false} CStringIs(sz: seq<char>, n: nat)
    requires n <= |sz|
    ensures CString(sz) == sz[..n] <==> EndsAt(sz, n)
  {
    if sz != [] && sz[0] != '\0' {
      if n > 0 {
        CStringIs(sz[1..], n - 1);
        assert sz[..n] == [sz[0]] + sz[1..][..n - 1];
        assert CString(sz)[1..] == CString(sz[1..]);
        assert EndsAt(sz, n) <==> EndsAt(sz[1..], n - 1) by {
          assert forall i :: 0 <= i < |sz| - 1 ==> sz[1..][i] == sz[i + 1];
          assert forall i :: 0 < i < |sz| ==> sz[i] == sz[1..][i - 1];
        }
      }
    }
  }

  /** A literal has the length it is given exactly when that is zero or the place of its first
      NUL. */
  lemma LiteralLength(sz: seq<char>, len: nat)
    requires len <= |sz|
    ensures LiteralText(sz, len) == sz[..len] <==> len == 0 || EndsAt(sz, len)
  {
    CStringIs(sz, len);
  }

  /** A shorter length is not kept. */
  lemma LiteralIsLonger()
    ensures LiteralText("ab", 1) == "ab" != "ab"[..1]
  {
    assert EndsAt("ab", 2);
    CStringIs("ab", 2);
  }

  class StringNode {
    var refcount: nat
    var len: nat
    var store: Store

    function Value(): NodeValue
      reads this
    {
      NodeValue(refcount, len, store)
    }

    constructor ()
      ensures Value().Ok() && refcount == 1 && len == 0
    {
      refcount, len := 1, 0;
      store := Local(['\0'] + seq(LOCAL - 1, _ => '?'));
    }

    /** Makes room for `extra` characters at the end, unless the node is shared. The new
        characters are not set; the caller copies them in. */
    method Grow(extra: nat) returns (buffer: nat, ok: bool)
      requires Value().Ok() && refcount > 0
      modifies this
      ensures refcount == old(refcount) && ok == (refcount == 1)
      ensures !ok ==> Value() == old(Value())
      ensures ok ==> buffer == old(len) && len == old(len) + extra
      ensures ok ==> Value().Ok() && Value().Text()[..buffer] == old(Value().Text())
    {
      ghost var text := store.chars[..len];
      buffer, ok := 0, false;
      refcount := refcount + 1;
      if refcount == 2 {
        if len < LOCAL {
          if len + extra < LOCAL {
            // still fits inside the node
          } else {
            var local_buffer := store.chars[..len];
            store := Allocated(local_buffer + seq(extra + 1, _ => '?'));
          }
        } else {
          store := Allocated(store.chars[..len] + seq(extra + 1, _ => '?'));
        }
        assert store.chars[..len] == text;
        buffer, ok := len, true;
        len := len + extra;
        store := store.(chars := Overwrite(store.chars, len, ['\0']));
        assert store.chars[..buffer] == text;
        assert store.chars[..len][..buffer] == text;
      }
      refcount := refcount - 1;
    }

    /** `memcpy(buffer, sz, len)` after a successful `Grow`. */
    method Fill(buffer: nat, sz: seq<char>)
      requires Value().Ok() && buffer + |sz| == len
      modifies this`store
      ensures Value().Ok() && Value().Text() == old(Value().Text())[..buffer] + sz
    {
      store := store.(chars := Overwrite(store.chars, buffer, sz));
      assert store.chars[..len] == old(store.chars[..len])[..buffer] + sz;
    }

    method AddRef()
      modifies this`refcount
      ensures refcount == old(refcount) + 1
    {
      refcount := refcount + 1;
    }

    /** The caller deletes the node when this was the last reference. */
    method Unref() returns (last: bool)
      requires refcount > 0
      modifies this`refcount
      ensures refcount == old(refcount) - 1 && last == (refcount == 0)
    {
      refcount := refcount - 1;
      last := refcount == 0;
    }
  }

  method MakeNode(sz: seq<char>) returns (node: StringNode)
    ensures fresh(node) && node.Value().Ok() && node.refcount == 1 && node.Value().Text() == sz
  {
    node := new StringNode();
    var buffer, ok := node.Grow(|sz|);
    node.Fill(buffer, sz);
  }

  // ---- Handles and nodes as one value ----

  /** A `string_handle`: no text, a literal that is not owned, or a node. */
  datatype Handle = Empty | Literal(sz: string) | Shared(node: StringNode)

  /** Handles of the program, and the local one that `assign` uses. */
  datatype Id = User(n: nat) | Temp

  /** All handles, and the contents of all nodes allocated and not yet deleted. */
  datatype Space = Space(handles: map<Id, Handle>, nodes: map<StringNode, NodeValue>)

  ghost function Users(handles: map<Id, Handle>, n: StringNode): set<Id> {
    set h | h in handles && handles[h] == Shared(n)
  }

  /** Every handle's node is allocated; every allocated node is in use, and its count is the
      number of handles on it. */
  ghost predicate Ok(s: Space) {
    && (forall h <- s.handles :: s.handles[h].Shared? ==> s.handles[h].node in s.nodes)
    && (forall n <- s.nodes :: s.nodes[n].Ok() && s.nodes[n].refcount > 0
                               && s.nodes[n].refcount == |Users(s.handles, n)|)
  }

  ghost function TextOf(s: Space, v: Handle): string
    requires v.Shared? ==> v.node in s.nodes && s.nodes[v.node].Ok()
  {
    match v
    case Empty => ""
    case Literal(sz) => CString(sz)
    case Shared(n) => s.nodes[n].Text()
  }

  /** The abstract value: a plain string for every handle. */
  ghost function View(s: Space): map<Id, string>
    requires Ok(s)
  {
    map h | h in s.handles :: TextOf(s, s.handles[h])
  }

  ghost function AddRefOf(s: Space, v: Handle): map<StringNode, NodeValue>
    requires v.Shared? ==> v.node in s.nodes
  {
    if v.Shared? then s.nodes[v.node := s.nodes[v.node].(refcount := s.nodes[v.node].refcount + 1)] else s.nodes
  }

  ghost function Copied(s: Space, h: Id, from: Id): Space
    requires Ok(s) && from in s.handles
  {
    Space(s.handles[h := s.handles[from]], AddRefOf(s, s.handles[from]))
  }

  /** The nodes after one reference of `v` is given up; the last one deletes the node. */
  ghost function Unrefd(s: Space, v: Handle): map<StringNode, NodeValue>
    requires v.Shared? ==> v.node in s.nodes && s.nodes[v.node].refcount > 0
  {
    if !v.Shared? then s.nodes
    else if s.nodes[v.node].refcount == 1 then s.nodes - {v.node}
    else s.nodes[v.node := s.nodes[v.node].(refcount := s.nodes[v.node].refcount - 1)]
  }

  ghost function Released(s: Space, h: Id): Space
    requires Ok(s) && h in s.handles
  {
    Space(s.handles[h := Empty], Unrefd(s, s.handles[h]))
  }

  lemma UsersSet(handles: map<Id, Handle>, h: Id, v: Handle, n: StringNode)
    ensures
      |Users(handles[h := v], n)|
      == |Users(handles, n)| - (if h in handles && handles[h] == Shared(n) then 1 else 0) + (if v == Shared(n) then 1 else 0)
  {
    var before, after := Users(handles, n), Users(handles[h := v], n);
    if v == Shared(n) {
      assert after == before + {h};
    } else {
      assert after == before - {h};
    }
  }

  lemma InUse(handles: map<Id, Handle>, h: Id, n: StringNode)
    requires h in handles && handles[h] == Shared(n)
    ensures h in Users(handles, n) && |Users(handles, n)| > 0
    ensures |Users(handles, n)| == 1 <==> Users(handles, n) == {h}
  {
    var u := Users(handles, n);
    if |u| == 1 {
      assert |u - {h}| == 0;
      assert u == {h} + (u - {h});
    }
  }

  /** How the number of handles on each node changes when one handle changes. */
  lemma CountsAfter(s: Space, h: Id, v: Handle)
    requires Ok(s)
    ensures forall n <- s.nodes ::
      |Users(s.handles[h := v], n)|
      == s.nodes[n].refcount - (if h in s.handles && s.handles[h] == Shared(n) then 1 else 0) + (if v == Shared(n) then 1 else 0)
  {
    forall n | n in s.nodes
      ensures |Users(s.handles[h := v], n)|
           == s.nodes[n].refcount - (if h in s.handles && s.handles[h] == Shared(n) then 1 else 0) + (if v == Shared(n) then 1 else 0)
    {
      UsersSet(s.handles, h, v, n);
    }
  }

  /** The nodes still in use kept their text. */
  ghost predicate SameTexts(s: Space, s': Space) {
    forall n <- s'.nodes :: n in s.nodes && s.nodes[n].Ok() && s'.nodes[n].Ok() && s'.nodes[n].Text() == s.nodes[n].Text()
  }

  lemma ViewAfter(s: Space, s': Space, h: Id)
    requires Ok(s) && Ok(s') && SameTexts(s, s')
    requires h in s'.handles && s'.handles == s.handles[h := s'.handles[h]]
    ensures View(s') == View(s)[h := TextOf(s', s'.handles[h])]
  {
  }

  lemma CopiedKeeps(s: Space, h: Id, from: Id)
    requires Ok(s) && h !in s.handles && from in s.handles
    ensures Ok(Copied(s, h, from)) && View(Copied(s, h, from)) == View(s)[h := View(s)[from]]
  {
    CopiedOk(s, h, from);
    ViewAfter(s, Copied(s, h, from), h);
    hide Users, SameTexts;
  }

  lemma CopiedOk(s: Space, h: Id, from: Id)
    requires Ok(s) && h !in s.handles && from in s.handles
    ensures Ok(Copied(s, h, from)) && SameTexts(s, Copied(s, h, from))
  {
    CountsAfter(s, h, s.handles[from]);
    hide Users;
  }

  /** Releasing a handle changes only that handle's text, and deletes the node exactly when
      the handle was the last one on it. */
  lemma ReleasedKeeps(s: Space, h: Id)
    requires Ok(s) && h in s.handles
    ensures Ok(Released(s, h)) && View(Released(s, h)) == View(s)[h := ""]
    ensures forall n <- s.nodes :: n !in Released(s, h).nodes <==> Users(s.handles, n) == {h}
  {
    ReleasedOk(s, h);
    ReleasedDeletes(s, h);
    hide Users, SameTexts;
    ViewAfter(s, Released(s, h), h);
  }

  lemma ReleasedOk(s: Space, h: Id)
    requires Ok(s) && h in s.handles
    ensures Ok(Released(s, h)) && SameTexts(s, Released(s, h))
  {
    ReleasedDeletes(s, h);
    CountsAfter(s, h, Empty);
    hide Users;
  }

  lemma ReleasedDeletes(s: Space, h: Id)
    requires Ok(s) && h in s.handles
    ensures forall n <- s.nodes :: n !in Released(s, h).nodes <==> Users(s.handles, n) == {h}
    ensures forall k <- s.handles :: k != h && s.handles[k].Shared? ==> s.handles[k].node in Released(s, h).nodes
  {
    forall n | n in s.nodes
      ensures n !in Released(s, h).nodes <==> Users(s.handles, n) == {h}
      ensures Users(s.handles, n) == {h} ==> forall k <- s.handles :: k != h ==> s.handles[k] != Shared(n)
    {
      if s.handles[h] == Shared(n) { InUse(s.handles, h, n); } else { assert h !in Users(s.handles, n); }
      if Users(s.handles, n) == {h} { StillElsewhere(s, h, n); }
    }
  }

  lemma ViewKeys(s: Space)
    requires Ok(s)
    ensures View(s).Keys == s.handles.Keys
  {
  }

  lemma NodeIsOk(s: Space, h: Id)
    requires Ok(s) && h in s.handles
    ensures s.handles[h].Shared? ==>
      s.handles[h].node in s.nodes && s.nodes[s.handles[h].node].Ok() && s.nodes[s.handles[h].node].refcount > 0
  {
  }

  lemma StillElsewhere(s: Space, h: Id, n: StringNode)
    requires h in s.handles && Users(s.handles, n) == {h}
    ensures forall k <- s.handles :: k != h ==> s.handles[k] != Shared(n)
  {
    assert forall k <- s.handles :: s.handles[k] == Shared(n) ==> k in Users(s.handles, n);
  }

  /** A handle without a node gets a new one. */
  lemma NewNodeKeeps(s: Space, h: Id, n: StringNode, v: NodeValue)
    requires Ok(s) && (h in s.handles ==> !s.handles[h].Shared?)
    requires n !in s.nodes && v.Ok() && v.refcount == 1
    ensures
      var s' := Space(s.handles[h := Shared(n)], s.nodes[n := v]);
      Ok(s') && View(s') == View(s)[h := v.Text()]
  {
    var handles := s.handles[h := Shared(n)];
    CountsAfter(s, h, Shared(n));
    assert Users(handles, n) == {h};
  }

  /** A handle without a node gets another value without a node. */
  lemma PlainKeeps(s: Space, h: Id, v: Handle)
    requires Ok(s) && (h in s.handles ==> !s.handles[h].Shared?) && !v.Shared?
    ensures
      var s' := s.(handles := s.handles[h := v]);
      Ok(s') && View(s') == View(s)[h := TextOf(s, v)]
  {
    CountsAfter(s, h, v);
  }

  lemma ForgetKeeps(s: Space, h: Id)
    requires Ok(s) && h in s.handles && !s.handles[h].Shared?
    ensures var s' := s.(handles := s.handles - {h}); Ok(s') && View(s') == View(s) - {h}
  {
    forall m | m in s.nodes ensures Users(s.handles - {h}, m) == Users(s.handles, m) {
    }
  }

  /** The only handle on a node sees the node's new text; no other handle changes. */
  lemma GrownKeeps(s: Space, h: Id, v: NodeValue)
    requires Ok(s) && h in s.handles && s.handles[h].Shared? && s.nodes[s.handles[h].node].refcount == 1
    requires v.Ok() && v.refcount == 1
    ensures
      var s' := s.(nodes := s.nodes[s.handles[h].node := v]);
      Ok(s') && View(s') == View(s)[h := v.Text()]
  {
    InUse(s.handles, h, s.handles[h].node);
    StillElsewhere(s, h, s.handles[h].node);
  }

  /** The local handle becomes handle `h`. */
  lemma MovedKeeps(s: Space, h: Id)
    requires Ok(s) && Temp in s.handles && h in s.handles && h != Temp && s.handles[h].Empty?
    ensures
      var s' := s.(handles := (s.handles - {Temp})[h := s.handles[Temp]]);
      Ok(s') && View(s') == (View(s) - {Temp})[h := View(s)[Temp]]
  {
    var v := s.handles[Temp];
    forall m | m in s.nodes ensures |Users((s.handles - {Temp})[h := v], m)| == s.nodes[m].refcount {
      UsersSet(s.handles, Temp, Empty, m);
      UsersSet(s.handles[Temp := Empty], h, v, m);
      assert Users(s.handles[Temp := Empty][h := v], m) == Users((s.handles - {Temp})[h := v], m);
    }
  }

  // ---- The operations ----

  /** `OOCore_string_t_left` with a start position. */
  function Mid(s: string, start: nat, length: nat): string {
    if start >= |s| then "" else if length > |s| - start then s[start..] else s[start..start + length]
  }

  function Right(s: string, length: nat): string {
    if |s| <= length then s else s[|s| - length..]
  }

  /** The part has the length asked for, or what is left from the start; its characters are those
      from the start on. */
  lemma MidIs(s: string, start: nat, length: nat)
    ensures
      var r := Mid(s, start, length);
      |r| == (if start >= |s| then 0 else if length < |s| - start then length else |s| - start)
      && forall i :: 0 <= i < |r| ==> r[i] == s[start + i]
  {
  }

  /** The part has the length asked for, or that of the text; it is what the text ends with. */
  lemma RightIs(s: string, length: nat)
    ensures
      var r := Right(s, length);
      |r| == (if length < |s| then length else |s|) && s == s[..|s| - |r|] + r
  {
  }

  class Strings {
    var handles: map<Id, Handle>
    ghost var nodes: set<StringNode>   // allocated and not yet deleted

    ghost function Now(): Space
      reads this, nodes
    {
      Space(handles, map n | n in nodes :: n.Value())
    }

    ghost predicate Valid()
      reads this, nodes
    {
      Ok(Now())
    }

    lemma HandlesAreKeys()
      requires Valid()
      ensures View(Now()).Keys == handles.Keys
    {
      ViewKeys(Now());
    }

    constructor ()
      ensures Valid() && View(Now()) == map[] && nodes == {}
    {
      handles, nodes := map[], {};
    }

    /** `OOCore_string_t_cast` */
    method Cast(h: Id) returns (text: string)
      requires Valid() && h in handles
      ensures text == View(Now())[h]
    {
      match handles[h] {
        case Empty => text := "";
        case Literal(sz) => text := CString(sz);
        case Shared(n) =>
          assert n in Now().nodes;
          text := n.store.chars[..n.len];
      }
    }

    /** A new node with the text `sz`, for a handle that has no node. */
    method SetNewNode(h: Id, sz: seq<char>)
      requires Valid() && (h in handles ==> !handles[h].Shared?)
      modifies this
      ensures Valid() && fresh(nodes - old(nodes))
      ensures View(Now()) == old(View(Now()))[h := sz] && handles.Keys == old(handles.Keys) + {h}
    {
      hide Ok, View, TextOf, Users;
      ghost var was := Now();
      var node := MakeNode(sz);
      NewNodeKeeps(was, h, node, node.Value());
      handles, nodes := handles[h := Shared(node)], nodes + {node};
      assert Now().nodes == was.nodes[node := node.Value()];
    }

    method SetPlain(h: Id, v: Handle)
      requires Valid() && (h in handles ==> !handles[h].Shared?) && !v.Shared?
      modifies this`handles
      ensures Valid() && handles == old(handles)[h := v]
      ensures View(Now()) == old(View(Now()))[h := if v.Literal? then CString(v.sz) else ""]
    {
      hide Ok, View, Users;
      ghost var was := Now();
      PlainKeeps(was, h, v);
      handles := handles[h := v];
      assert Now() == was.(handles := was.handles[h := v]);
    }

    /** `OOCore_string_t__ctor`: no length means up to the NUL; nothing to copy means no node. */
    method Construct(h: Id, sz: seq<char>, len: Option<nat>)
      requires Valid() && h !in handles
      requires len.Some? ==> len.value <= |sz|
      modifies this
      ensures Valid() && fresh(nodes - old(nodes))
      ensures View(Now()) == old(View(Now()))[h := if len.Some? then sz[..len.value] else CString(sz)]
    {
      hide Ok, View, TextOf, Users, Now;
      var text := CString(sz);
      if len.Some? {
        text := sz[..len.value];
      }
      if |text| == 0 {
        SetPlain(h, Empty);
      } else {
        SetNewNode(h, text);
      }
    }

    /** `OOCore_string_t__const_ctor`: the length only says whether there is any text. */
    method ConstructLiteral(h: Id, sz: seq<char>, len: nat)
      requires Valid() && h !in handles
      modifies this`handles
      ensures Valid()
      ensures View(Now()) == old(View(Now()))[h := LiteralText(sz, len)]
    {
      hide Ok, View, TextOf, Users, Now;
      SetPlain(h, if len == 0 then Empty else Literal(sz));
    }

    /** The copy constructor: copy the handle, then `OOCore_string_t_addref(h, 0)`. */
    method CopyHandle(h: Id, from: Id)
      requires Valid() && h !in handles && from in handles
      modifies this`handles, nodes
      ensures Valid() && handles == old(handles)[h := old(handles)[from]]
      ensures View(Now()) == old(View(Now()))[h := old(View(Now()))[from]]
    {
      hide Ok, View, TextOf, Users;
      ghost var was := Now();
      CopiedKeeps(was, h, from);
      NodeIsOk(was, from);
      var v := handles[from];
      if v.Shared? {
        v.node.AddRef();
      }
      handles := handles[h := v];
      assert Now().nodes == AddRefOf(was, v);
    }

    /** `OOCore_string_t_release`: a node goes exactly when its last handle goes. */
    method Release(h: Id)
      requires Valid() && h in handles
      modifies this, nodes
      ensures Valid() && handles == old(handles)[h := Empty] && nodes <= old(nodes)
      ensures View(Now()) == old(View(Now()))[h := ""]
      ensures forall n <- old(nodes) :: n !in nodes <==> Users(old(handles), n) == {h}
    {
      hide Ok, View, TextOf, Users;
      ghost var was := Now();
      ReleasedKeeps(was, h);
      NodeIsOk(was, h);
      var v := handles[h];
      if v.Shared? {
        var last := v.node.Unref();
        if last {
          nodes := nodes - {v.node};
        }
      }
      handles := handles[h := Empty];
      assert Now().nodes == Unrefd(was, v);
      assert forall n <- old(nodes) :: n in was.nodes && (n in nodes <==> n in Now().nodes);
    }

    /** A released handle goes out of scope. */
    method Forget(h: Id)
      requires Valid() && h in handles && !handles[h].Shared?
      modifies this`handles
      ensures Valid() && handles == old(handles) - {h} && View(Now()) == old(View(Now())) - {h}
    {
      hide Ok, View, TextOf, Users;
      ghost var was := Now();
      ForgetKeeps(was, h);
      handles := handles - {h};
      assert Now() == was.(handles := was.handles - {h});
    }

    /** `OOCore_string_t_assign`: the count of the new text goes up before the old text is
        released, so assigning a handle to itself is safe. */
    method Assign(h: Id, from: Id)
      requires Valid() && h in handles && from in handles && Temp !in handles
      modifies this, nodes
      ensures Valid() && nodes <= old(nodes) && handles.Keys == old(handles.Keys)
      ensures View(Now()) == old(View(Now()))[h := old(View(Now()))[from]]
    {
      hide Ok, View, TextOf, Users;
      ghost var view := View(Now());
      HandlesAreKeys();
      CopyHandle(Temp, from);
      Release(h);
      ghost var was := Now();
      MovedKeeps(was, h);
      handles := (handles - {Temp})[h := handles[Temp]];
      assert Now() == was.(handles := (was.handles - {Temp})[h := was.handles[Temp]]);
      assert View(Now()) == view[h := view[from]];
    }

    /** Appending reads the added characters through a pointer taken before the buffer grows.
        That is safe unless the handle is appended to itself, is the only one on its node, and
        the text leaves its buffer. */
    ghost predicate SafeAppend(h: Id, from: Id)
      requires Valid() && h in handles
      reads this, nodes
    {
      h != from || !handles[h].Shared?
      || (assert handles[h].node in Now().nodes; handles[h].node.refcount > 1 || 2 * handles[h].node.len < LOCAL)
    }

    /** `OOCore_string_t_append1` */
    method Append(h: Id, from: Id)
      requires Valid() && h in handles && from in handles && SafeAppend(h, from)
      modifies this, nodes
      ensures Valid() && fresh(nodes - old(nodes)) && handles.Keys == old(handles.Keys)
      ensures View(Now()) == old(View(Now()))[h := old(View(Now()))[h] + old(View(Now()))[from]]
    {
      hide Ok, View, TextOf, Users, Now;
      var add := Cast(from);
      AppendText(h, add);
    }

    /** `OOCore_string_t_append2`, and what `append1` does with its text: grow in place when
        the handle is alone on its node, otherwise move to a new node. */
    method AppendText(h: Id, add: seq<char>)
      requires Valid() && h in handles
      modifies this, nodes
      ensures Valid() && fresh(nodes - old(nodes)) && handles.Keys == old(handles.Keys)
      ensures View(Now()) == old(View(Now()))[h := old(View(Now()))[h] + add]
    {
      hide Ok, View, TextOf, Users, Now;
      ghost var view := View(Now());
      HandlesAreKeys();
      if |add| > 0 {
        var grown := false;
        if handles[h].Shared? {
          grown := AppendInPlace(h, add);
        }
        if !grown {
          var orig := Cast(h);
          Release(h);
          SetNewNode(h, orig + add);
        }
      }
      if |add| == 0 { assert view[h] + add == view[h]; }
    }

    method AppendInPlace(h: Id, add: seq<char>) returns (grown: bool)
      requires Valid() && h in handles && handles[h].Shared?
      modifies nodes
      ensures grown ==> Valid() && View(Now()) == old(View(Now()))[h := old(View(Now()))[h] + add]
      ensures !grown ==> Now() == old(Now())
    {
      ghost var was := Now();
      var node := handles[h].node;
      NodeIsOk(was, h);
      var buffer, ok := node.Grow(|add|);
      if ok {
        node.Fill(buffer, add);
        GrownKeeps(was, h, node.Value());
      }
      grown := ok;
      assert Now().nodes == was.nodes[node := node.Value()];
    }

    /** `OOCore_string_t_left`: the whole text is shared, a part of it is copied. */
    method Left(h: Id, from: Id, start: nat, length: nat)
      requires Valid() && h !in handles && from in handles
      modifies this, nodes
      ensures Valid() && fresh(nodes - old(nodes))
      ensures View(Now()) == old(View(Now()))[h := Mid(old(View(Now()))[from], start, length)]
      ensures
        var was, now := old(View(Now()))[from], View(Now())[h];
        |now| == (if start >= |was| then 0 else if length < |was| - start then length else |was| - start)
        && forall i :: 0 <= i < |now| ==> now[i] == was[start + i]
      ensures start == 0 && 0 < |old(View(Now()))[from]| <= length ==> handles == old(handles)[h := old(handles)[from]]
    {
      hide Ok, View, TextOf, Users, Now;
      var text := Cast(from);
      MidIs(text, start, length);
      var length' := length;
      if start >= |text| {
        SetPlain(h, Empty);
      } else {
        if length' > |text| - start {
          length' := |text| - start;
        }
        if start == 0 && |text| == length' {
          assert Mid(text, start, length) == text;
          CopyHandle(h, from);
        } else {
          assert text[start..][..length'] == Mid(text, start, length);
          Construct(h, text[start..], Some(length'));
        }
      }
    }

    /** `OOCore_string_t_right` */
    method TakeRight(h: Id, from: Id, length: nat)
      requires Valid() && h !in handles && from in handles
      modifies this, nodes
      ensures Valid() && fresh(nodes - old(nodes))
      ensures View(Now()) == old(View(Now()))[h := Right(old(View(Now()))[from], length)]
      ensures
        var was, now := old(View(Now()))[from], View(Now())[h];
        |now| == (if length < |was| then length else |was|) && was == was[..|was| - |now|] + now
      ensures |old(View(Now()))[from]| <= length ==> handles == old(handles)[h := old(handles)[from]]
    {
      hide Ok, View, TextOf, Users, Now;
      var text := Cast(from);
      RightIs(text, length);
      if |text| <= length {
        CopyHandle(h, from);
      } else {
        assert text[|text| - length..][..length] == Right(text, length);
        Construct(h, text[|text| - length..], Some(length));
      }
    }

    /** Any one operation does to the abstract value what it does to plain strings. */
    method Do(op: Op)
      requires Valid() && Temp !in handles && Legal(View(Now()), op)
      modifies this, nodes
      ensures Valid() && Temp !in handles && fresh(nodes - old(nodes))
      ensures View(Now()) == Apply(old(View(Now())), op)
    {
      hide Ok, View, TextOf, Users, Now;
      HandlesAreKeys();
      match op {
        case NewText(h, sz, len) => Construct(User(h), sz, len);
        case NewLiteral(h, sz, len) => ConstructLiteral(User(h), sz, len);
        case NewCopy(h, from) => CopyHandle(User(h), User(from));
        case NewMid(h, from, start, length) => Left(User(h), User(from), start, length);
        case NewRight(h, from, length) => TakeRight(User(h), User(from), length);
        case Let(h, from) => Assign(User(h), User(from));
        case Add(h, from) => Append(User(h), User(from));
        case AddText(h, sz) => AppendText(User(h), sz);
        case Clear(h) => Release(User(h));
        case Destroy(h) =>
          Release(User(h));
          HandlesAreKeys();
          Forget(User(h));
      }
      HandlesAreKeys();
    }

    /** Any run of operations. */
    method Run(ops: seq<Op>)
      requires Valid() && Temp !in handles && LegalRun(View(Now()), ops)
      modifies this, nodes
      ensures Valid() && Temp !in handles && fresh(nodes - old(nodes))
      ensures View(Now()) == ApplyAll(old(View(Now())), ops)
      decreases ops
    {
      hide Ok, View, TextOf, Users, Now;
      if ops != [] {
        Do(ops[0]);
        Run(ops[1..]);
      }
    }
  }

  /** Operations of a program on its string variables, numbered. */
  datatype Op =
    | NewText(h: nat, sz: seq<char>, len: Option<nat>)
    | NewLiteral(h: nat, sz: seq<char>, size: nat)
    | NewCopy(h: nat, from: nat)
    | NewMid(h: nat, from: nat, start: nat, length: nat)
    | NewRight(h: nat, from: nat, length: nat)
    | Let(h: nat, from: nat)
    | Add(h: nat, from: nat)
    | AddText(h: nat, sz: seq<char>)
    | Clear(h: nat)
    | Destroy(h: nat)

  ghost predicate Legal(v: map<Id, string>, op: Op) {
    match op
    case NewText(h, sz, len) => User(h) !in v && (len.Some? ==> len.value <= |sz|)
    case NewLiteral(h, _, _) => User(h) !in v
    case NewCopy(h, from) => User(h) !in v && User(from) in v
    case NewMid(h, from, _, _) => User(h) !in v && User(from) in v
    case NewRight(h, from, _) => User(h) !in v && User(from) in v
    case Let(h, from) => User(h) in v && User(from) in v
    case Add(h, from) => User(h) in v && User(from) in v && h != from
    case AddText(h, _) => User(h) in v
    case Clear(h) => User(h) in v
    case Destroy(h) => User(h) in v
  }

  ghost function Apply(v: map<Id, string>, op: Op): map<Id, string>
    requires Legal(v, op)
  {
    match op
    case NewText(h, sz, len) => v[User(h) := if len.Some? then sz[..len.value] else CString(sz)]
    case NewLiteral(h, sz, size) => v[User(h) := LiteralText(sz, size)]
    case NewCopy(h, from) => v[User(h) := v[User(from)]]
    case NewMid(h, from, start, length) => v[User(h) := Mid(v[User(from)], start, length)]
    case NewRight(h, from, length) => v[User(h) := Right(v[User(from)], length)]
    case Let(h, from) => v[User(h) := v[User(from)]]
    case Add(h, from) => v[User(h) := v[User(h)] + v[User(from)]]
    case AddText(h, sz) => v[User(h) := v[User(h)] + sz]
    case Clear(h) => v[User(h) := ""]
    case Destroy(h) => v - {User(h)}
  }

  ghost predicate LegalRun(v: map<Id, string>, ops: seq<Op>)
    decreases |ops|
  {
    ops == [] || (Legal(v, ops[0]) && LegalRun(Apply(v, ops[0]), ops[1..]))
  }

  ghost function ApplyAll(v: map<Id, string>, ops: seq<Op>): map<Id, string>
    requires LegalRun(v, ops)
    decreases |ops|
  {
    if ops == [] then v else ApplyAll(Apply(v, ops[0]), ops[1..])
  }
}
