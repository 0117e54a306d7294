/** The message formatter: placeholders filled one argument at a time
    (Formatting.cpp:1749-1763, 1776-1805, 1814-1892). */
module Formatters {

  /** `(unsigned long)-1`, which marks a placeholder that has its text. */
  const DONE: nat := 0xFFFF_FFFF_FFFF_FFFF

  datatype Insert = Insert(index: nat, alignment: int, format: string, suffix: string)

  /** `format_state_t` */
  datatype State = State(prefix: string, inserts: seq<Insert>)

  // ---- Alignment ----

  function Spaces(n: nat): (s: string)
    ensures |s| == n && forall i :: 0 <= i < n ==> s[i] == ' '
  {
    if n == 0 then [] else Spaces(n - 1) + [' ']
  }

  function Width(alignment: int): nat {
    if alignment < 0 then -alignment else alignment
  }

  /** `text`, on the left when the alignment is negative, in at least that many characters. */
  function Aligned(text: string, alignment: int): (s: string)
    ensures |s| == if |text| < Width(alignment) then Width(alignment) else |text|
    ensures if alignment < 0 then text <= s else s[|s| - |text|..] == text
    ensures alignment < 0 ==> forall i :: |text| <= i < |s| ==> s[i] == ' '
    ensures alignment >= 0 ==> forall i :: 0 <= i < |s| - |text| ==> s[i] == ' '
  {
    if |text| >= Width(alignment) then text
    else
      var fill := Spaces(Width(alignment) - |text|);
      if alignment < 0 then text + fill else fill + text
  }

  method Align(text: string, alignment: int) returns (s: string)
    ensures s == Aligned(text, alignment)
  {
    var width := if alignment < 0 then -alignment else alignment;
    if |text| >= width {
      return text;
    }
    var fill := "";
    var i := 0;
    while i < width - |text|
      invariant 0 <= i <= width - |text|
      invariant fill == Spaces(i)
    {
      fill := fill + " ";
      i := i + 1;
    }
    s := if alignment < 0 then text + fill else fill + text;
  }

  // ---- Filling ----

  /** The lowest index that is left, or `DONE`. */
  function Lowest(s: seq<Insert>): (i: nat)
    ensures i <= DONE
  {
    if s == [] then DONE
    else
      var before := Lowest(s[..|s| - 1]);
      var last := s[|s| - 1].index;
      if last < before then last else before
  }

  /** The leftmost placeholder with an index, or the number of placeholders. */
  function First(s: seq<Insert>, index: nat): (p: nat)
    ensures p <= |s| && (p < |s| ==> s[p].index == index)
    ensures forall j :: 0 <= j < p ==> s[j].index != index
  {
    if s == [] then 0
    else if s[0].index == index then 0
    else
      var p := First(s[1..], index);
      assert forall j :: 1 <= j < 1 + p ==> s[j] == s[1..][j - 1];
      1 + p
  }

  /** `get_arg` */
  function NextArg(s: seq<Insert>): (nat, string) {
    var index := Lowest(s);
    if index == DONE then (DONE, "")
    else
      var p := First(s, index);
      (index, if p < |s| then s[p].format else "")
  }

  function Done(ins: Insert, text: string): Insert {
    ins.(index := DONE, format := Aligned(text, ins.alignment))
  }

  /** `set_arg` */
  function WithArg(s: seq<Insert>, index: nat, text: string): seq<Insert> {
    var p := First(s, index);
    if p < |s| then s[p := Done(s[p], text)] else s + [Insert(DONE, 0, " " + text, "")]
  }

  /** How the caller renders an argument in a given format. */
  type Show<!A> = (A, string) -> string

  /** One `%`. */
  function Fill<A>(s: seq<Insert>, arg: A, show: Show<A>): seq<Insert> {
    var (index, format) := NextArg(s);
    WithArg(s, index, show(arg, format))
  }

  function FillAll<A>(s: seq<Insert>, args: seq<A>, show: Show<A>): seq<Insert> {
    if args == [] then s
    else Fill(FillAll(s, args[..|args| - 1], show), args[|args| - 1], show)
  }

  // ---- Rendering and copying ----

  function Digits(n: nat): string {
    (if n < 10 then "" else Digits(n / 10)) + ["0123456789"[n % 10]]
  }

  function Number(i: int): string {
    if i < 0 then "-" + Digits(-i) else Digits(i)
  }

  /** The number that a row of decimal digits stands for. */
  function Decimal(s: string): nat {
    if s == "" then 0
    else 10 * Decimal(s[..|s| - 1]) + if '0' <= s[|s| - 1] <= '9' then s[|s| - 1] as nat - '0' as nat else 0
  }

  lemma {:induction false} DigitsAre(n: nat)
    ensures
      var s := Digits(n);
      s != "" && (forall c <- s :: '0' <= c <= '9') && Decimal(s) == n && (s[0] == '0' ==> s == "0")
  {
    var s := Digits(n);
    if n >= 10 {
      DigitsAre(n / 10);
      assert s[..|s| - 1] == Digits(n / 10);
    }
  }

  lemma NumberIs(i: int)
    ensures i >= 0 ==> Number(i) == Digits(i)
    ensures i < 0 ==> Number(i) != "" && Number(i)[0] == '-' && Number(i)[1..] == Digits(-i)
  {
  }

  function Piece(ins: Insert): string {
    if ins.index != DONE then
      "{" + Digits(ins.index) + (if ins.alignment != 0 then "," + Number(ins.alignment) else "") + (ins.format + "}")
    else ins.format + ins.suffix
  }

  function Pieces(s: seq<Insert>): string {
    if s == [] then "" else Pieces(s[..|s| - 1]) + Piece(s[|s| - 1])
  }

  /** `cast` */
  function Cast(f: State): string {
    f.prefix + Pieces(f.inserts)
  }

  /** The copy puts the leading filled placeholders into the prefix. */
  function Copied(f: State): State
    decreases |f.inserts|
  {
    if f.inserts == [] || f.inserts[0].index != DONE then f
    else Copied(State(f.prefix + Piece(f.inserts[0]), f.inserts[1..]))
  }

  lemma CopyStep(prefix: string, s: seq<Insert>, i: nat)
    requires i <= |s|
    ensures i == |s| ==> Copied(State(prefix, s[i..])) == State(prefix, [])
    ensures i < |s| ==> s[i..] == [s[i]] + s[i + 1..]
    ensures i < |s| && s[i].index == DONE ==>
              Copied(State(prefix, s[i..])) == Copied(State(prefix + Piece(s[i]), s[i + 1..]))
    ensures i < |s| && s[i].index != DONE ==> Copied(State(prefix, s[i..])) == State(prefix, s[i..])
  {
    hide Piece;
    if i < |s| {
      assert s[i..][1..] == s[i + 1..];
    } else {
      assert s[i..] == [];
    }
  }

  class Formatter {
    var prefix: string
    var inserts: seq<Insert>

    function View(): State
      reads this
    {
      State(prefix, inserts)
    }

    constructor (prefix: string, inserts: seq<Insert>)
      ensures View() == State(prefix, inserts)
    {
      this.prefix, this.inserts := prefix, inserts;
    }

    constructor Copy(other: Formatter)
      ensures View() == Copied(other.View())
    {
      var text, kept := Collapse(other.prefix, other.inserts);
      prefix, inserts := text, kept;
    }

    static method Collapse(start: string, s: seq<Insert>) returns (text: string, kept: seq<Insert>)
      ensures State(text, kept) == Copied(State(start, s))
    {
      hide Piece, Copied;
      text, kept := start, [];
      var pushed := false;
      var i := 0;
      assert s[0..] == s;
      while i < |s|
        invariant i <= |s|
        invariant !pushed ==> kept == [] && Copied(State(start, s)) == Copied(State(text, s[i..]))
        invariant pushed ==> Copied(State(start, s)) == State(text, kept + s[i..])
      {
        var ins := s[i];
        CopyStep(text, s, i);
        if !pushed && ins.index == DONE {
          DonePiece(ins);
          text := text + (ins.format + ins.suffix);
        } else {
          assert kept + ([ins] + s[i + 1..]) == (kept + [ins]) + s[i + 1..];
          kept := kept + [ins];
          pushed := true;
        }
        i := i + 1;
      }
      CopyStep(text, s, i);
      assert kept + s[i..] == kept;
    }

    method GetArg() returns (index: nat, format: string)
      ensures (index, format) == NextArg(inserts)
    {
      index, format := DONE, "";
      var i := 0;
      ghost var p := 0;
      while i < |inserts|
        invariant i <= |inserts|
        invariant index == Lowest(inserts[..i])
        invariant index == DONE ==> format == ""
        invariant index < DONE ==> p < i && p == First(inserts, index) && format == inserts[p].format
      {
        assert inserts[..i + 1][..i] == inserts[..i];
        if inserts[i].index < index {
          LowestIs(inserts[..i]);
          index, format, p := inserts[i].index, inserts[i].format, i;
          FirstIs(inserts, index, i);
        }
        i := i + 1;
      }
      assert inserts[..i] == inserts;
    }

    method SetArg(index: nat, text: string)
      modifies this
      ensures prefix == old(prefix) && inserts == WithArg(old(inserts), index, text)
    {
      var i := 0;
      while i < |inserts|
        invariant i <= |inserts|
        invariant prefix == old(prefix) && inserts == old(inserts)
        invariant forall j :: 0 <= j < i ==> inserts[j].index != index
      {
        if inserts[i].index == index {
          FirstIs(inserts, index, i);
          var format := Align(text, inserts[i].alignment);
          inserts := inserts[i := inserts[i].(format := format, index := DONE)];
          return;
        }
        i := i + 1;
      }
      inserts := inserts + [Insert(DONE, 0, " " + text, "")];
    }

    method ToText() returns (text: string)
      ensures text == Cast(View())
    {
      hide Piece, Pieces, Digits, Number;
      text := prefix;
      NoPieces();
      var i := 0;
      while i < |inserts|
        invariant i <= |inserts|
        invariant text == prefix + Pieces(inserts[..i])
      {
        var ins := inserts[i];
        PiecesStep(inserts, i);
        PieceIs(ins);
        Join2(prefix, Pieces(inserts[..i]), Piece(ins));
        if ins.index != DONE {
          var number := if ins.alignment != 0 then "," + Number(ins.alignment) else "";
          Join(text, "{" + Digits(ins.index), number, ins.format + "}");
          text := text + ("{" + Digits(ins.index));
          text := text + number;
          text := text + (ins.format + "}");
        } else {
          text := text + (ins.format + ins.suffix);
        }
        i := i + 1;
      }
      assert inserts[..i] == inserts;
    }
  }

  lemma Join2(a: string, b: string, c: string)
    ensures (a + b) + c == a + (b + c)
  {
  }

  lemma PiecesStep(s: seq<Insert>, i: nat)
    requires i < |s|
    ensures Pieces(s[..i + 1]) == Pieces(s[..i]) + Piece(s[i])
  {
    hide Piece;
    assert s[..i + 1][..i] == s[..i];
  }

  lemma DonePiece(ins: Insert)
    requires ins.index == DONE
    ensures Piece(ins) == ins.format + ins.suffix
  {
  }

  lemma PieceIs(ins: Insert)
    ensures Piece(ins) ==
            if ins.index != DONE then
              "{" + Digits(ins.index) + (if ins.alignment != 0 then "," + Number(ins.alignment) else "") + (ins.format + "}")
            else ins.format + ins.suffix
  {
  }

  lemma Join(start: string, a: string, b: string, c: string)
    ensures ((start + a) + b) + c == start + (a + b + c)
  {
  }

  lemma FirstIs(s: seq<Insert>, index: nat, i: nat)
    requires i < |s| && s[i].index == index && forall j :: 0 <= j < i ==> s[j].index != index
    ensures First(s, index) == i
  {
  }

  lemma {:induction false} LowestIs(s: seq<Insert>)
    ensures forall j :: 0 <= j < |s| ==> Lowest(s) <= s[j].index
    ensures Lowest(s) < DONE ==> exists j :: 0 <= j < |s| && s[j].index == Lowest(s)
  {
    if s != [] {
      LowestIs(s[..|s| - 1]);
      var last := s[|s| - 1].index;
      if Lowest(s) < DONE && last >= Lowest(s[..|s| - 1]) {
        var j :| 0 <= j < |s| - 1 && s[..|s| - 1][j].index == Lowest(s);
        assert s[j].index == Lowest(s);
      }
    }
  }

  // ---- The order of filling ----

  /** Placeholders are filled by index, and from left to right among equal ones. */
  predicate Before(s: seq<Insert>, i: nat, j: nat)
    requires i < |s| && j < |s|
  {
    s[i].index < s[j].index || (s[i].index == s[j].index && i < j)
  }

  ghost function Earlier(s: seq<Insert>, p: nat): set<nat>
    requires p < |s|
  {
    set i | 0 <= i < |s| && Before(s, i, p)
  }

  /** How many placeholders are filled before `p`. */
  ghost function Rank(s: seq<Insert>, p: nat): nat
    requires p < |s|
  {
    |Earlier(s, p)|
  }

  lemma Smaller<T>(a: set<T>, b: set<T>)
    requires a < b
    ensures |a| < |b|
  {
    assert b == a + (b - a);
    var x :| x in b - a;
    assert |b - a| == |b - a - {x}| + 1;
  }

  lemma RankGrows(s: seq<Insert>, i: nat, j: nat)
    requires i < |s| && j < |s| && Before(s, i, j)
    ensures Rank(s, i) < Rank(s, j)
  {
    assert i in Earlier(s, j) && i !in Earlier(s, i);
    Smaller(Earlier(s, i), Earlier(s, j));
  }

  /** What the text of placeholder `p` becomes. */
  function Text<A>(s: seq<Insert>, p: nat, arg: A, show: Show<A>): Insert
    requires p < |s|
  {
    Done(s[p], show(arg, s[p].format))
  }

  /** After `args` the first placeholders in order have their arguments, the others are as
      they were. */
  ghost predicate FilledInOrder<A>(s: seq<Insert>, args: seq<A>, show: Show<A>, now: seq<Insert>) {
    && |now| == |s|
    && forall p :: 0 <= p < |s| ==>
         now[p] == if Rank(s, p) < |args| then Text(s, p, args[Rank(s, p)], show) else s[p]
  }

  ghost function Ready(s: seq<Insert>, m: nat): set<nat> {
    set p | 0 <= p < |s| && Rank(s, p) < m
  }

  /** The next argument goes to the leftmost placeholder of the lowest index left. */
  lemma NextIs(s: seq<Insert>)
    requires Lowest(s) < DONE
    ensures var p := First(s, Lowest(s));
            && p < |s| && NextArg(s) == (s[p].index, s[p].format)
            && forall j :: 0 <= j < |s| && j != p ==> Before(s, p, j)
  {
    LowestIs(s);
    var p := First(s, Lowest(s));
    var j :| 0 <= j < |s| && s[j].index == Lowest(s);
  }

  lemma FillIs<A>(s: seq<Insert>, arg: A, show: Show<A>)
    requires Lowest(s) < DONE
    ensures var p := First(s, Lowest(s)); p < |s| && Fill(s, arg, show) == s[p := Text(s, p, arg, show)]
  {
    NextIs(s);
  }

  /** When `m` placeholders are filled, the one to be filled next has rank `m`. */
  lemma NextHasRank<A>(s: seq<Insert>, args: seq<A>, show: Show<A>, now: seq<Insert>)
    requires forall i <- s :: i.index < DONE
    requires FilledInOrder(s, args, show, now) && |Ready(s, |args|)| == |args| < |s|
    ensures Lowest(now) < DONE
    ensures var p := First(now, Lowest(now)); p < |s| && Rank(s, p) == |args| && now[p] == s[p]
  {
    var m := |args|;
    SomeLeft(s, args, show, now);
    NextIs(now);
    var p := First(now, Lowest(now));
    assert s[p] in s && now[p].index < DONE;
    assert Rank(s, p) >= m;
    forall i | 0 <= i < |s| ensures i in Ready(s, m) <==> i in Earlier(s, p) {
      assert s[i] in s;
      if i in Ready(s, m) {
        if !Before(s, i, p) {
          RankGrows(s, p, i);
        }
      } else if i != p {
        assert Before(now, p, i);
      }
    }
    assert Ready(s, m) == Earlier(s, p);
  }

  /** With fewer arguments than placeholders, one is left. */
  lemma SomeLeft<A>(s: seq<Insert>, args: seq<A>, show: Show<A>, now: seq<Insert>)
    requires forall i <- s :: i.index < DONE
    requires FilledInOrder(s, args, show, now) && |Ready(s, |args|)| == |args| < |s|
    ensures Lowest(now) < DONE
  {
    hide Rank, Text, Lowest;
    var ready, all := Ready(s, |args|), Numbers(|s|);
    assert ready <= all && ready != all;
    var p :| p in all && p !in ready;
    assert s[p] in s && now[p] == s[p];
    LowestIs(now);
  }

  ghost function Numbers(n: nat): (a: set<nat>)
    ensures |a| == n
    ensures forall i :: i in a <==> 0 <= i < n
  {
    if n == 0 then {} else Numbers(n - 1) + {n - 1}
  }

  lemma OneMoreReady(s: seq<Insert>, m: nat, p: nat)
    requires p < |s| && Rank(s, p) == m
    ensures Ready(s, m + 1) == Ready(s, m) + {p} && p !in Ready(s, m)
  {
    forall i | 0 <= i < |s| && i != p ensures Rank(s, i) != m {
      if Before(s, i, p) {
        RankGrows(s, i, p);
      } else {
        RankGrows(s, p, i);
      }
    }
  }

  /** Arguments fill the placeholders in stable order of index and position. */
  lemma {:induction false} FillsInOrder<A>(s: seq<Insert>, args: seq<A>, show: Show<A>)
    requires (forall i <- s :: i.index < DONE) && |args| <= |s|
    ensures FilledInOrder(s, args, show, FillAll(s, args, show))
    ensures |Ready(s, |args|)| == |args|
    decreases |args|
  {
    hide Rank, Fill, Lowest, First, Text;
    if args == [] {
      assert Ready(s, 0) == {};
    } else {
      var m := |args| - 1;
      var before := args[..m];
      var now := FillAll(s, before, show);
      FillsInOrder(s, before, show);
      NextHasRank(s, before, show, now);
      FillIs(now, args[m], show);
      var p := First(now, Lowest(now));
      OneMoreReady(s, m, p);
      FillStep(s, before, args[m], show, now, p);
      assert args == before + [args[m]];
    }
  }

  lemma FillStep<A>(s: seq<Insert>, args: seq<A>, arg: A, show: Show<A>, now: seq<Insert>, p: nat)
    requires FilledInOrder(s, args, show, now) && p < |s| && Rank(s, p) == |args| && now[p] == s[p]
    requires Ready(s, |args| + 1) == Ready(s, |args|) + {p} && p !in Ready(s, |args|)
    ensures FilledInOrder(s, args + [arg], show, now[p := Text(now, p, arg, show)])
  {
    hide Rank;
    var all := args + [arg];
    var next := now[p := Text(now, p, arg, show)];
    forall i | 0 <= i < |s|
      ensures next[i] == if Rank(s, i) < |all| then Text(s, i, all[Rank(s, i)], show) else s[i]
    {
      assert i in Ready(s, |args| + 1) <==> Rank(s, i) < |args| + 1;
      assert i in Ready(s, |args|) <==> Rank(s, i) < |args|;
    }
  }

  /** The arguments in the order of the placeholders they fill. */
  ghost function Placed<A>(s: seq<Insert>, args: seq<A>): (r: seq<A>)
    requires |args| == |s| && forall p :: 0 <= p < |s| ==> Rank(s, p) < |s|
    ensures |r| == |s| && forall p :: 0 <= p < |s| ==> r[p] == args[Rank(s, p)]
  {
    seq(|s|, p requires 0 <= p < |s| => args[Rank(s, p)])
  }

  /** With as many arguments as placeholders, every placeholder has one, and the text is the
      prefix followed by each argument and suffix in text order. */
  lemma AllFilled<A>(f: State, args: seq<A>, show: Show<A>)
    requires (forall i <- f.inserts :: i.index < DONE) && |args| == |f.inserts|
    ensures forall p :: 0 <= p < |args| ==> Rank(f.inserts, p) < |args|
    ensures AllDone(FillAll(f.inserts, args, show))
    ensures Cast(State(f.prefix, FillAll(f.inserts, args, show))) ==
            f.prefix + Rendered(f.inserts, Placed(f.inserts, args), show)
  {
    hide Rank, FillAll, Placed, Pieces, Rendered;
    var s := f.inserts;
    forall p | 0 <= p < |s| ensures Rank(s, p) < |s| {
      RankBound(s, p);
    }
    FillsInOrder(s, args, show);
    PiecesAre(s, Placed(s, args), show, FillAll(s, args, show));
  }

  lemma RankBound(s: seq<Insert>, p: nat)
    requires p < |s|
    ensures Rank(s, p) < |s|
  {
    assert p in Numbers(|s|) && p !in Earlier(s, p);
    Smaller(Earlier(s, p), Numbers(|s|));
  }

  /** Every argument in the format and alignment of its placeholder, followed by the text after
      the placeholder. */
  ghost function Rendered<A>(s: seq<Insert>, args: seq<A>, show: Show<A>): string
    requires |args| == |s|
  {
    if s == [] then ""
    else
      var n := |s| - 1;
      Rendered(s[..n], args[..n], show) + (Aligned(show(args[n], s[n].format), s[n].alignment) + s[n].suffix)
  }

  lemma {:induction false} PiecesAre<A>(s: seq<Insert>, args: seq<A>, show: Show<A>, now: seq<Insert>)
    requires |args| == |s| == |now|
    requires forall p :: 0 <= p < |s| ==> now[p] == Text(s, p, args[p], show)
    ensures Pieces(now) == Rendered(s, args, show)
    decreases |s|
  {
    if s != [] {
      var n := |s| - 1;
      PiecesAre(s[..n], args[..n], show, now[..n]);
    }
  }

  // ---- Copies ----

  predicate Unfilled(s: seq<Insert>) {
    exists i :: 0 <= i < |s| && s[i].index != DONE
  }

  lemma {:induction false} PiecesFront(s: seq<Insert>)
    requires s != []
    ensures Pieces(s) == Piece(s[0]) + Pieces(s[1..])
    decreases |s|
  {
    hide Piece, Pieces;
    var n := |s| - 1;
    PiecesStep(s, n);
    assert s[..n + 1] == s;
    if n == 0 {
      NoPieces();
      assert s[..0] == [] && s[1..] == [];
      assert Piece(s[0]) + "" == "" + Piece(s[0]);
    } else {
      PiecesFront(s[..n]);
      assert s[..n][1..] == s[1..][..n - 1];
      PiecesStep(s[1..], n - 1);
      assert s[1..][..n] == s[1..];
      Join2(Piece(s[0]), Pieces(s[1..][..n - 1]), Piece(s[n]));
    }
  }

  lemma NoPieces()
    ensures Pieces([]) == ""
  {
  }

  /** A copy reads the same. */
  lemma {:induction false} CopyCasts(f: State)
    ensures Cast(Copied(f)) == Cast(f)
    decreases |f.inserts|
  {
    if f.inserts != [] && f.inserts[0].index == DONE {
      CopyCasts(State(f.prefix + Piece(f.inserts[0]), f.inserts[1..]));
      PiecesFront(f.inserts);
    }
  }

  function FillState<A>(f: State, arg: A, show: Show<A>): State {
    f.(inserts := Fill(f.inserts, arg, show))
  }

  lemma FirstBehind(s: seq<Insert>, index: nat)
    requires s != [] && s[0].index != index
    ensures First(s, index) == 1 + First(s[1..], index)
  {
  }

  lemma {:induction false} LowestFront(s: seq<Insert>)
    requires s != []
    ensures Lowest(s) == if s[0].index < Lowest(s[1..]) then s[0].index else Lowest(s[1..])
    decreases |s|
  {
    if |s| == 1 {
      assert s[..0] == [] && s[1..] == [];
    } else {
      var n := |s| - 1;
      LowestFront(s[..n]);
      assert s[..n][1..] == s[1..][..n - 1];
      assert s[1..][n - 1] == s[n];
    }
  }

  lemma LowestBehind(s: seq<Insert>)
    requires s != [] && s[0].index == DONE && (forall i <- s :: i.index <= DONE) && Unfilled(s)
    ensures Lowest(s) == Lowest(s[1..]) < DONE && Unfilled(s[1..])
  {
    hide Lowest;
    var i :| 0 <= i < |s| && s[i].index != DONE;
    assert s[1..][i - 1] == s[i] && s[i] in s;
    LowestFront(s);
    LowestIs(s[1..]);
  }

  /** Leading filled placeholders take no part in filling. */
  lemma FillBehind<A>(s: seq<Insert>, arg: A, show: Show<A>)
    requires s != [] && s[0].index == DONE && (forall i <- s :: i.index <= DONE) && Unfilled(s)
    ensures Fill(s, arg, show) == [s[0]] + Fill(s[1..], arg, show) && Unfilled(s[1..])
  {
    hide Lowest, First, Fill, Aligned, Done;
    LowestBehind(s);
    FillIs(s[1..], arg, show);
    FillIs(s, arg, show);
    FirstBehind(s, Lowest(s));
    var q := First(s[1..], Lowest(s));
    var text := Text(s, q + 1, arg, show);
    assert text == Text(s[1..], q, arg, show);
    assert s[q + 1 := text] == [s[0]] + s[1..][q := text];
  }

  /** While something is unfilled, filling a copy is as good as filling the original. */
  lemma {:induction false} CopyThenFill<A>(f: State, arg: A, show: Show<A>)
    requires Unfilled(f.inserts) && forall i <- f.inserts :: i.index <= DONE
    ensures Copied(FillState(Copied(f), arg, show)) == Copied(FillState(f, arg, show))
    decreases |f.inserts|
  {
    var s := f.inserts;
    if s[0].index == DONE {
      var g := State(f.prefix + Piece(s[0]), s[1..]);
      FillBehind(s, arg, show);
      CopyThenFill(g, arg, show);
      assert Fill(s, arg, show)[1..] == Fill(s[1..], arg, show);
      assert Copied(FillState(f, arg, show)) == Copied(FillState(g, arg, show));
    }
  }

  // ---- More arguments than placeholders ----

  predicate AllDone(s: seq<Insert>) {
    forall i :: 0 <= i < |s| ==> s[i].index == DONE
  }

  lemma {:induction false} AllDoneLowest(s: seq<Insert>)
    requires AllDone(s)
    ensures Lowest(s) == DONE
  {
    if s != [] {
      AllDoneLowest(s[..|s| - 1]);
    }
  }

  /** A surplus argument replaces the text of the first placeholder; it is appended only when
      there is none. */
  lemma Surplus<A>(s: seq<Insert>, arg: A, show: Show<A>)
    requires AllDone(s)
    ensures Fill(s, arg, show) ==
            if s == [] then [Insert(DONE, 0, " " + show(arg, ""), "")] else s[0 := Done(s[0], show(arg, ""))]
  {
    AllDoneLowest(s);
    if s != [] {
      FirstIs(s, DONE, 0);
    }
  }

  lemma FullIs<A>(s: seq<Insert>, args: seq<A>, show: Show<A>)
    requires (forall i <- s :: i.index < DONE) && |args| == |s|
    ensures AllDone(FillAll(s, args, show)) && |FillAll(s, args, show)| == |s|
  {
    hide Rank;
    AllFilled(State("", s), args, show);
    FillsInOrder(s, args, show);
  }

  /** However many surplus arguments there are, only the first placeholder shows it: it has the
      last one. */
  lemma {:induction false} SurplusArgs<A>(s: seq<Insert>, args: seq<A>, show: Show<A>)
    requires s != [] && (forall i <- s :: i.index < DONE) && |args| > |s|
    ensures var full := FillAll(s, args[..|s|], show);
            && full != [] && AllDone(full)
            && FillAll(s, args, show) == full[0 := Done(full[0], show(args[|args| - 1], ""))]
    decreases |args|
  {
    hide Lowest, First, Fill, Aligned;
    var n := |args| - 1;
    var full := FillAll(s, args[..|s|], show);
    FullIs(s, args[..|s|], show);
    if n > |s| {
      SurplusArgs(s, args[..n], show);
      assert args[..n][..|s|] == args[..|s|];
    }
    Surplus(FillAll(s, args[..n], show), args[n], show);
  }

  lemma {:induction false} CopyOfDone(f: State)
    requires AllDone(f.inserts)
    ensures Copied(f) == State(Cast(f), [])
    decreases |f.inserts|
  {
    if f.inserts != [] {
      PiecesFront(f.inserts);
      CopyOfDone(State(f.prefix + Piece(f.inserts[0]), f.inserts[1..]));
    }
  }

  function Verbatim(arg: string, format: string): string {
    arg
  }

  function FilledText(f: State, arg: string): string {
    Cast(FillState(f, arg, Verbatim))
  }

  /** Does filling a copy read like filling the original, whatever the argument? */
  ghost predicate CopyFillsAlike(f: State) {
    forall arg :: FilledText(Copied(f), arg) == FilledText(f, arg)
  }

  /** Exactly while a placeholder is unfilled, or when there are none. */
  lemma CopyFillsAlikeIff(f: State)
    requires forall i <- f.inserts :: i.index <= DONE
    ensures CopyFillsAlike(f) <==> Unfilled(f.inserts) || f.inserts == []
  {
    if Unfilled(f.inserts) {
      forall arg ensures FilledText(Copied(f), arg) == FilledText(f, arg) {
        CopyThenFill(f, arg, Verbatim);
        CopyCasts(FillState(Copied(f), arg, Verbatim));
        CopyCasts(FillState(f, arg, Verbatim));
      }
    } else if f.inserts != [] {
      SurplusDiffers(f, Spaces(Width(f.inserts[0].alignment)));
    }
  }

  /** The original loses its first text, the copy grows by a space and the argument. */
  lemma SurplusDiffers(f: State, arg: string)
    requires AllDone(f.inserts) && f.inserts != [] && |arg| >= Width(f.inserts[0].alignment)
    ensures FilledText(Copied(f), arg) != FilledText(f, arg)
  {
    hide Pieces, Lowest, First, Fill;
    var s := f.inserts;
    CopyOfDone(f);
    Surplus([], arg, Verbatim);
    Surplus(s, arg, Verbatim);
    var n := Fill(s, arg, Verbatim);
    PiecesFront(s);
    PiecesFront(n);
    assert n[1..] == s[1..];
    var added := [Insert(DONE, 0, " " + arg, "")];
    PiecesFront(added);
    NoPieces();
    assert added[1..] == [];
    assert |FilledText(Copied(f), arg)| == |Cast(f)| + 1 + |arg|;
    assert |FilledText(f, arg)| == |Cast(f)| - |s[0].format| + |arg|;
  }
}
