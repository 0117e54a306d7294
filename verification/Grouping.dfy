/** Thousands separators: the grouping loops of `do_intl_mon` and `do_intl`
    (Formatting.cpp:302-323, 577-601). */
module Grouping {

  const CHAR_MAX: int := 127

  /** The characters of a grouping string, which ends at its NUL. */
  predicate SizesOk(sizes: seq<int>) {
    forall i :: 0 <= i < |sizes| ==> -128 <= sizes[i] <= CHAR_MAX && sizes[i] != 0
  }

  /** The size of the group with `k` groups to its right; the last size of the list repeats,
      and an empty list asks for no grouping. */
  function Size(sizes: seq<int>, k: nat): (n: int)
    requires SizesOk(sizes)
    ensures n != 0 && n <= CHAR_MAX
  {
    if sizes == [] then CHAR_MAX else if k < |sizes| then sizes[k] else sizes[|sizes| - 1]
  }

  function Concat(groups: seq<string>): string {
    if groups == [] then "" else groups[0] + Concat(groups[1..])
  }

  function Join(groups: seq<string>, separator: string): string {
    if groups == [] then ""
    else if |groups| == 1 then groups[0]
    else groups[0] + (separator + Join(groups[1..], separator))
  }

  /** Does the group with `k` groups to its right take all of `left` characters? `CHAR_MAX`
      says so, and so does a negative size, which compares as a huge one. */
  predicate Last(sizes: seq<int>, k: nat, left: nat)
    requires SizesOk(sizes)
  {
    Size(sizes, k) == CHAR_MAX || Size(sizes, k) < 0 || left <= Size(sizes, k)
  }

  /** `digits`, with `k` groups to their right, cut into groups. */
  function Groups(digits: string, sizes: seq<int>, k: nat): seq<string>
    requires SizesOk(sizes)
    decreases |digits|
  {
    if Last(sizes, k, |digits|) then [digits]
    else
      var at := |digits| - Size(sizes, k);
      Groups(digits[..at], sizes, k + 1) + [digits[at..]]
  }

  /** The loop. `position` is the place of the decimal point, or the end. `sizes` are the
      characters of the grouping string before its NUL. */
  method Group(text: string, position: nat, sizes: seq<int>, separator: string) returns (r: string)
    requires position <= |text| && SizesOk(sizes)
    ensures r == Join(Groups(text[..position], sizes, 0), separator) + text[position..]
  {
    hide Last, Groups;
    r := text;
    var pos: nat := position;
    var size := CHAR_MAX;
    var next := 0;
    ghost var tail: seq<string> := [];
    Begin(text, position, sizes, separator);
    while true
      invariant pos <= position && next <= |sizes| && next <= |tail| && (next < |sizes| ==> next == |tail|)
      invariant size == if next == 0 then CHAR_MAX else sizes[next - 1]
      invariant r == Join([text[..pos]] + tail, separator) + text[position..]
      invariant Groups(text[..position], sizes, 0) == Groups(text[..pos], sizes, |tail|) + tail
      decreases pos
    {
      if next < |sizes| {
        size := sizes[next];
        next := next + 1;
      }
      assert size == Size(sizes, |tail|);
      GroupsStep(text, pos, sizes, tail);
      if size == CHAR_MAX {
        break;
      }
      if size < 0 || pos <= size {
        break;
      }
      Split(text[..pos], size, tail, separator, text[position..]);
      assert text[..pos][..pos - size] == text[..pos - size];
      pos := pos - size;
      r := r[..pos] + separator + r[pos..];
      tail := [text[pos..pos + size]] + tail;
    }
  }

  lemma Begin(text: string, position: nat, sizes: seq<int>, separator: string)
    requires position <= |text| && SizesOk(sizes)
    ensures text == Join([text[..position]] + [], separator) + text[position..]
    ensures Groups(text[..position], sizes, 0) == Groups(text[..position], sizes, 0) + []
  {
    JoinCons(text[..position], [], separator);
  }

  lemma GroupsStep(text: string, pos: nat, sizes: seq<int>, tail: seq<string>)
    requires pos <= |text| && SizesOk(sizes)
    ensures var size := Size(sizes, |tail|);
            if size == CHAR_MAX || size < 0 || pos <= size then
              Groups(text[..pos], sizes, |tail|) + tail == [text[..pos]] + tail
            else
              size > 0 && text[..pos][pos - size..] == text[pos - size..pos]
              && Groups(text[..pos], sizes, |tail|) + tail ==
                 Groups(text[..pos - size], sizes, |tail| + 1) + ([text[pos - size..pos]] + tail)
  {
    hide Groups, Size;
    var size := Size(sizes, |tail|);
    GroupsUnfold(text[..pos], sizes, |tail|);
    if !Last(sizes, |tail|, pos) {
      assert text[..pos][..pos - size] == text[..pos - size];
      Regroup(Groups(text[..pos - size], sizes, |tail| + 1), text[pos - size..pos], tail);
    }
  }

  lemma GroupsUnfold(digits: string, sizes: seq<int>, k: nat)
    requires SizesOk(sizes)
    ensures Last(sizes, k, |digits|) ==> Groups(digits, sizes, k) == [digits]
    ensures !Last(sizes, k, |digits|) ==>
              var at := |digits| - Size(sizes, k);
              0 < at < |digits| && Groups(digits, sizes, k) == Groups(digits[..at], sizes, k + 1) + [digits[at..]]
  {
    hide Size;
  }

  lemma Regroup(a: seq<string>, b: string, c: seq<string>)
    ensures (a + [b]) + c == a + ([b] + c)
  {
  }

  lemma JoinCons(first: string, tail: seq<string>, separator: string)
    ensures Join([first] + tail, separator) == if tail == [] then first else first + (separator + Join(tail, separator))
  {
    assert ([first] + tail)[1..] == tail;
  }

  /** Inserting a separator `size` characters before the end of the first group splits it. */
  lemma Split(first: string, size: nat, tail: seq<string>, separator: string, rest: string)
    requires size <= |first|
    ensures var at := |first| - size;
            var s := Join([first] + tail, separator) + rest;
            at <= |s| && s[..at] + separator + s[at..] == Join([first[..at]] + ([first[at..]] + tail), separator) + rest
  {
    hide Join;
    var at := |first| - size;
    JoinCons(first, tail, separator);
    JoinCons(first[..at], [first[at..]] + tail, separator);
    JoinCons(first[at..], tail, separator);
    assert first == first[..at] + first[at..];
    Insert(first[..at], first[at..], if tail == [] then "" else separator + Join(tail, separator), rest, separator);
  }

  lemma Insert(a: string, b: string, more: string, rest: string, separator: string)
    ensures var s := (a + b) + more + rest;
            s[..|a|] + separator + s[|a|..] == a + (separator + (b + more)) + rest
    ensures (a + b) + "" == a + b && b + "" == b
  {
    var s := (a + b) + more + rest;
    assert s[..|a|] == a;
    assert s[|a|..] == b + more + rest;
  }

  lemma {:induction false} ConcatAppend(groups: seq<string>, last: string)
    ensures Concat(groups + [last]) == Concat(groups) + last
  {
    if groups == [] {
      assert groups + [last] == [last] && [last][1..] == [];
    } else {
      ConcatAppend(groups[1..], last);
      assert (groups + [last])[1..] == groups[1..] + [last];
    }
  }

  // ---- What the grouping means ----

  /** Position `i` from the left has `n - 1 - i` groups to its right. */
  function SizeAt(sizes: seq<int>, k: nat, n: nat, i: nat): int
    requires i < n && SizesOk(sizes)
  {
    Size(sizes, k + n - 1 - i)
  }

  /** The groups are the digits; every group but the first has the size the list gives it,
      counted from the right; and the first takes the rest because the list stops there, or
      because the rest is not longer than its size. */
  lemma {:induction false} GroupsAre(digits: string, sizes: seq<int>, k: nat)
    requires SizesOk(sizes)
    ensures var g := Groups(digits, sizes, k);
            && g != [] && Concat(g) == digits && (digits != "" ==> g[0] != "")
            && (forall i :: 0 < i < |g| ==> 0 < |g[i]| == SizeAt(sizes, k, |g|, i) < CHAR_MAX)
            && Last(sizes, k + |g| - 1, |g[0]|)
    decreases |digits|
  {
    hide Groups, Size, Concat;
    GroupsUnfold(digits, sizes, k);
    if Last(sizes, k, |digits|) {
      ConcatOne(digits);
    } else {
      var at := |digits| - Size(sizes, k);
      var before := Groups(digits[..at], sizes, k + 1);
      GroupsAre(digits[..at], sizes, k + 1);
      ConcatAppend(before, digits[at..]);
      assert digits == digits[..at] + digits[at..];
      var g := before + [digits[at..]];
      forall i | 0 < i < |g| ensures 0 < |g[i]| == SizeAt(sizes, k, |g|, i) < CHAR_MAX {
        if i < |before| {
          assert g[i] == before[i] && k + |g| - 1 - i == k + 1 + |before| - 1 - i;
        }
      }
    }
  }

  /** Counted from the right, each group but the first has the size at its place in the list; the
      last size stands for all that come after it. The first group is what is left when the size
      in turn is `CHAR_MAX` or negative, or is as long as what is left. */
  lemma GroupSizes(digits: string, sizes: seq<int>)
    requires SizesOk(sizes)
    ensures
      var g := Groups(digits, sizes, 0);
      && (sizes == [] ==> g == [digits])
      && (forall j :: 0 <= j < |g| - 1 ==>
            0 < |g[|g| - 1 - j]| == (if j < |sizes| then sizes[j] else sizes[|sizes| - 1]) < CHAR_MAX)
      && (sizes != [] ==>
            var last := if |g| - 1 < |sizes| then sizes[|g| - 1] else sizes[|sizes| - 1];
            last == CHAR_MAX || last < 0 || |g[0]| <= last)
  {
    GroupsAre(digits, sizes, 0);
    hide Groups, Concat;
    var g := Groups(digits, sizes, 0);
    forall j | 0 <= j < |g| - 1
      ensures sizes != []
      ensures 0 < |g[|g| - 1 - j]| == (if j < |sizes| then sizes[j] else sizes[|sizes| - 1]) < CHAR_MAX
    {
      assert |g[|g| - 1 - j]| == SizeAt(sizes, 0, |g|, |g| - 1 - j);
    }
    if sizes == [] {
      ConcatOne(g[0]);
      assert g == [g[0]];
    }
  }

  lemma ConcatOne(digits: string)
    ensures Concat([digits]) == digits
  {
    assert [digits][1..] == [];
  }

  function Strip(s: string, separator: string): string {
    if s == "" then "" else (if s[0] in separator then "" else [s[0]]) + Strip(s[1..], separator)
  }

  lemma {:induction false} StripAppend(s: string, t: string, separator: string)
    ensures Strip(s + t, separator) == Strip(s, separator) + Strip(t, separator)
  {
    if s == "" {
      assert s + t == t;
    } else {
      assert (s + t)[1..] == s[1..] + t;
      StripAppend(s[1..], t, separator);
    }
  }

  lemma {:induction false} StripNothing(s: string, separator: string)
    requires forall c <- s :: c !in separator
    ensures Strip(s, separator) == s
  {
    if s != "" {
      StripNothing(s[1..], separator);
    }
  }

  lemma {:induction false} StripAllOf(s: string, separator: string)
    requires forall c <- s :: c in separator
    ensures Strip(s, separator) == ""
  {
    if s != "" {
      StripAllOf(s[1..], separator);
    }
  }

  lemma {:induction false} StripJoin(groups: seq<string>, separator: string)
    requires forall c <- Concat(groups) :: c !in separator
    ensures Strip(Join(groups, separator), separator) == Concat(groups)
  {
    hide Strip;
    if groups == [] {
      StripNothing("", separator);
    } else {
      assert Concat(groups) == groups[0] + Concat(groups[1..]);
      StripNothing(groups[0], separator);
      if |groups| == 1 {
        assert groups[1..] == [];
        assert groups[0] + "" == groups[0];
      } else {
        StripJoin(groups[1..], separator);
        StripAllOf(separator, separator);
        StripAppend(separator, Join(groups[1..], separator), separator);
        StripAppend(groups[0], separator + Join(groups[1..], separator), separator);
      }
    }
  }

  /** Taking the separators out gives the number back, when it has none of their characters. */
  lemma Restores(text: string, position: nat, sizes: seq<int>, separator: string)
    requires position <= |text| && SizesOk(sizes)
    requires forall c <- text :: c !in separator
    ensures Strip(Join(Groups(text[..position], sizes, 0), separator) + text[position..], separator) == text
  {
    var g := Groups(text[..position], sizes, 0);
    GroupsAre(text[..position], sizes, 0);
    StripJoin(g, separator);
    StripNothing(text[position..], separator);
    StripAppend(Join(g, separator), text[position..], separator);
    assert text == text[..position] + text[position..];
  }
}
