/** The text form of GUIDs: `OOCore_guid_t_to_string` and `OOCore_guid_t_from_string`
    (Types.cpp:655-735). */
module Guids {

  datatype Guid = Guid(data1: nat, data2: nat, data3: nat, data4: seq<nat>)

  predicate GuidOk(g: Guid) {
    g.data1 < 0x1_0000_0000 && g.data2 < 0x1_0000 && g.data3 < 0x1_0000
    && |g.data4| == 8 && forall b <- g.data4 :: b < 256
  }

  // ---- Hexadecimal digits ----

  function Pow16(k: nat): (p: nat)
    ensures p > 0
  {
    if k == 0 then 1 else 16 * Pow16(k - 1)
  }

  function Digit(n: nat): char
    requires n < 16
  {
    "0123456789ABCDEF"[n]
  }

  /** `priv_isxdigit` */
  predicate IsHex(c: char) {
    '0' <= c <= '9' || 'A' <= c <= 'F' || 'a' <= c <= 'f'
  }

  function DigitValue(c: char): (n: nat)
    requires IsHex(c)
    ensures n < 16
  {
    if c <= '9' then c as nat - '0' as nat
    else if c <= 'F' then c as nat - 'A' as nat + 10
    else c as nat - 'a' as nat + 10
  }

  function UpperChar(c: char): char {
    if 'a' <= c <= 'z' then (c as int - 32) as char else c
  }

  function Upper(s: string): (u: string)
    ensures |u| == |s| && forall i :: 0 <= i < |s| ==> u[i] == UpperChar(s[i])
  {
    seq(|s|, i requires 0 <= i < |s| => UpperChar(s[i]))
  }

  /** `%.<width>X` for a number that fits */
  function Hex(n: nat, width: nat): (s: string)
    ensures |s| == width && forall c <- s :: IsHex(c)
  {
    if width == 0 then "" else Hex(n / 16, width - 1) + [Digit(n % 16)]
  }

  predicate AllHex(s: string) {
    forall i :: 0 <= i < |s| ==> IsHex(s[i])
  }

  function Value(s: string): nat
    requires AllHex(s)
  {
    if s == "" then 0 else 16 * Value(s[..|s| - 1]) + DigitValue(s[|s| - 1])
  }

  lemma DigitBack(n: nat)
    requires n < 16
    ensures IsHex(Digit(n)) && DigitValue(Digit(n)) == n
  {
  }

  lemma BackDigit(c: char)
    requires IsHex(c)
    ensures Digit(DigitValue(c)) == UpperChar(c)
  {
  }

  lemma {:induction false} ValueOfHex(n: nat, width: nat)
    requires n < Pow16(width)
    ensures AllHex(Hex(n, width)) && Value(Hex(n, width)) == n
  {
    if width > 0 {
      ValueOfHex(n / 16, width - 1);
      DigitBack(n % 16);
      var s := Hex(n, width);
      assert s[..width - 1] == Hex(n / 16, width - 1) && s[width - 1] == Digit(n % 16);
    }
  }

  lemma Sixteen(a: nat, d: nat)
    requires d < 16
    ensures (16 * a + d) / 16 == a && (16 * a + d) % 16 == d
  {
  }

  lemma ValueStep(s: string)
    requires AllHex(s) && s != ""
    ensures AllHex(s[..|s| - 1]) && IsHex(s[|s| - 1])
    ensures Value(s) == 16 * Value(s[..|s| - 1]) + DigitValue(s[|s| - 1])
  {
  }

  lemma {:induction false} HexOfValue(s: string)
    requires AllHex(s)
    ensures Hex(Value(s), |s|) == Upper(s) && Value(s) < Pow16(|s|)
  {
    if s != "" {
      hide AllHex, IsHex, Digit, DigitValue, UpperChar, Value;
      ValueStep(s);
      var front, last := s[..|s| - 1], s[|s| - 1];
      HexOfValue(front);
      BackDigit(last);
      Sixteen(Value(front), DigitValue(last));
      assert Upper(s) == Upper(front) + [UpperChar(last)];
    }
  }

  // ---- Bytes ----

  predicate BytesOk(bytes: seq<nat>) {
    forall i :: 0 <= i < |bytes| ==> bytes[i] < 256
  }

  function Number(bytes: seq<nat>): nat {
    if bytes == [] then 0 else 256 * Number(bytes[..|bytes| - 1]) + bytes[|bytes| - 1]
  }

  /** The last `n` bytes of a number, the highest first. */
  function Bytes(v: nat, n: nat): (b: seq<nat>)
    ensures |b| == n && BytesOk(b)
  {
    if n == 0 then [] else Bytes(v / 256, n - 1) + [v % 256]
  }

  function HexBytes(bytes: seq<nat>): (s: string)
    ensures |s| == 2 * |bytes| && forall c <- s :: IsHex(c)
  {
    if bytes == [] then "" else HexBytes(bytes[..|bytes| - 1]) + Hex(bytes[|bytes| - 1], 2)
  }

  lemma HexStep(n: nat, width: nat)
    ensures Hex(n, 0) == ""
    ensures width > 0 ==> Hex(n, width) == Hex(n / 16, width - 1) + [Digit(n % 16)]
  {
  }

  lemma Nibbles(v: nat)
    ensures v / 16 / 16 == v / 256 && v / 16 % 16 == v % 256 / 16 % 16 && v % 16 == v % 256 % 16
  {
  }

  lemma HexTwo(v: nat, width: nat)
    ensures Hex(v, width + 2) == Hex(v / 256, width) + Hex(v % 256, 2)
  {
    hide Hex, Digit;
    Nibbles(v);
    HexStep(v, width + 2);
    HexStep(v / 16, width + 1);
    HexStep(v % 256, 2);
    HexStep(v % 256 / 16, 1);
    HexStep(v % 256 / 16 / 16, 0);
  }

  lemma {:induction false} HexOfBytes(v: nat, n: nat)
    ensures HexBytes(Bytes(v, n)) == Hex(v, 2 * n)
  {
    if n > 0 {
      HexOfBytes(v / 256, n - 1);
      HexTwo(v, 2 * (n - 1));
      var b := Bytes(v, n);
      assert b[..n - 1] == Bytes(v / 256, n - 1);
    }
  }

  lemma {:induction false} BytesOfNumber(bytes: seq<nat>)
    requires BytesOk(bytes)
    ensures Bytes(Number(bytes), |bytes|) == bytes && Number(bytes) < Pow16(2 * |bytes|)
  {
    if bytes != [] {
      var front, last := bytes[..|bytes| - 1], bytes[|bytes| - 1];
      BytesOfNumber(front);
      assert Number(bytes) / 256 == Number(front) && Number(bytes) % 256 == last;
      assert Pow16(2 * |bytes|) == 256 * Pow16(2 * |front|);
    }
  }

  /** The text of bytes reads as their number. */
  lemma ValueOfBytes(bytes: seq<nat>)
    requires BytesOk(bytes)
    ensures AllHex(HexBytes(bytes)) && Value(HexBytes(bytes)) == Number(bytes)
  {
    BytesOfNumber(bytes);
    HexOfBytes(Number(bytes), |bytes|);
    ValueOfHex(Number(bytes), 2 * |bytes|);
  }

  // ---- Printing ----

  function Print(g: Guid): (s: string)
    requires GuidOk(g)
    ensures |s| == 38
  {
    "{" + Hex(g.data1, 8) + "-" + Hex(g.data2, 4) + "-" + Hex(g.data3, 4) + "-"
    + HexBytes(g.data4[..2]) + "-" + HexBytes(g.data4[2..]) + "}"
  }

  // ---- strtoul ----

  const TWO_64: nat := 0x1_0000_0000_0000_0000

  /** The character at `i` of a C string; its NUL stands behind the end. */
  function At(s: string, i: nat): char {
    if i < |s| then s[i] else '\0'
  }

  predicate IsSpace(c: char) {
    c == ' ' || ('\t' <= c <= '\r')
  }

  function SkipSpace(s: string, i: nat): (j: nat)
    ensures i <= j && (i <= |s| ==> j <= |s|)
    decreases |s| - i
  {
    if i < |s| && IsSpace(s[i]) then SkipSpace(s, i + 1) else i
  }

  function SkipHex(s: string, i: nat): (j: nat)
    ensures i <= j && (i <= |s| ==> j <= |s|)
    ensures forall k :: i <= k < j ==> k < |s| && IsHex(s[k])
    ensures !IsHex(At(s, j))
    decreases |s| - i
  {
    if i < |s| && IsHex(s[i]) then SkipHex(s, i + 1) else i
  }

  predicate IsSign(c: char) {
    c == '+' || c == '-'
  }

  /** A 0x counts only before a digit. */
  predicate Prefixed(s: string, i: nat) {
    At(s, i) == '0' && (At(s, i + 1) == 'x' || At(s, i + 1) == 'X') && IsHex(At(s, i + 2))
  }

  function DigitsStart(s: string, i: nat): nat {
    if Prefixed(s, i) then i + 2 else i
  }

  /** Base 16: white space, a sign, a 0x before a digit, then digits; too large a number is the
      largest one. Gives the value and the end, which is the start when there is no digit. */
  function Strtoul(s: string, start: nat, modulus: nat): (nat, nat)
    requires start <= |s| && modulus > 0
  {
    var a := SkipSpace(s, start);
    var c := DigitsStart(s, if IsSign(At(s, a)) then a + 1 else a);
    var d := SkipHex(s, c);
    if d == c then (0, start)
    else
      var v := Value(s[c..d]);
      (if v >= modulus then modulus - 1 else if At(s, a) == '-' then (modulus - v) % modulus else v, d)
  }

  lemma {:induction false} SkipHexTo(s: string, i: nat, j: nat)
    requires i <= j <= |s| && (forall k :: i <= k < j ==> IsHex(s[k])) && !IsHex(At(s, j))
    ensures SkipHex(s, i) == j
    decreases j - i
  {
    if i < j {
      SkipHexTo(s, i + 1, j);
    }
  }

  lemma Below64(width: nat)
    requires width <= 16
    ensures Pow16(width) <= TWO_64
  {
    Pow16Grows(width, 16);
    assert Pow16(8) == 0x1_0000_0000;
    assert Pow16(16) == TWO_64 by { Pow16Add(8, 8); }
  }

  lemma {:induction false} Pow16Add(a: nat, b: nat)
    ensures Pow16(a + b) == Pow16(a) * Pow16(b)
  {
    if a > 0 {
      Pow16Add(a - 1, b);
    }
  }

  lemma {:induction false} Pow16Grows(a: nat, b: nat)
    requires a <= b
    ensures Pow16(a) <= Pow16(b)
  {
    if a < b {
      Pow16Grows(a, b - 1);
    }
  }

  // ---- Parsing ----

  /** The values of `unsigned long`: 64 bits, or 32 on Windows. */
  function Ulong(wide: bool): (m: nat)
    ensures m >= 0x1_0000_0000
  {
    if wide then TWO_64 else 0x1_0000_0000
  }

  /** `guid_t_from_string` on a result that is `g` before. On failure the caller clears the first
      three fields; its `memset` of the last one has its arguments swapped and clears nothing. */
  function Parse(s: string, g: Guid, wide: bool): (bool, Guid)
    requires |g.data4| == 8
  {
    var failed := (false, Guid(0, 0, 0, g.data4));
    if At(s, 0) != '{' || !IsHex(At(s, 1)) then failed
    else
      var (v, e) := Strtoul(s, 1, Ulong(wide));
      if e != 9 || At(s, 9) != '-' || !IsHex(At(s, 10)) then failed
      else
        var (v2, e2) := Strtoul(s, 10, Ulong(wide));
        if e2 != 14 || At(s, 14) != '-' || !IsHex(At(s, 15)) then failed
        else
          var (v3, e3) := Strtoul(s, 15, Ulong(wide));
          if e3 != 19 || At(s, 19) != '-' || !IsHex(At(s, 20)) then failed
          else
            ParseTail(s, Guid(v % 0x1_0000_0000, v2 % 0x1_0000, v3 % 0x1_0000, g.data4), wide)
  }

  function ParseTail(s: string, g: Guid, wide: bool): (bool, Guid)
    requires |g.data4| == 8 && 20 <= |s|
  {
    var (w, e) := Strtoul(s, 20, Ulong(wide));
    if e != 24 then (false, Guid(0, 0, 0, g.data4))
    else
      var data4 := g.data4[0 := w / 256 % 256][1 := w % 256];
      if At(s, 24) != '-' && !IsHex(At(s, 25)) then (false, Guid(0, 0, 0, data4))
      else
        var (x, e2) := Strtoul(s, 25, TWO_64);
        if e2 != 37 then (false, Guid(0, 0, 0, data4))
        else
          var all := data4[2 := x / 0x1_0000_0000 / 256 % 256][3 := x / 0x1_0000_0000 % 256][4 := x / 0x100_0000 % 256]
                          [5 := x / 0x1_0000 % 256][6 := x / 256 % 256][7 := x % 256];
          if At(s, 37) != '}' || |s| != 38 then (false, Guid(0, 0, 0, all))
          else (true, g.(data4 := all))
  }

  method FromString(s: string, old4: seq<nat>, wide: bool) returns (ok: bool, g: Guid)
    requires |old4| == 8
    ensures (ok, g) == Parse(s, Guid(0, 0, 0, old4), wide)
    ensures (ok, g) == Outcome(s, Guid(0, 0, 0, old4))
  {
    ok, g := ParseFields(s, old4, wide);
    if !ok {
      g := Guid(0, 0, 0, g.data4);
    }
    ParseIs(s, Guid(0, 0, 0, old4), wide);
  }

  /** Fills the fields one after the other, and stops where the text is wrong. */
  method ParseFields(s: string, old4: seq<nat>, wide: bool) returns (ok: bool, g: Guid)
    requires |old4| == 8
    ensures (ok, if ok then g else Guid(0, 0, 0, g.data4)) == Parse(s, Guid(0, 0, 0, old4), wide)
  {
    hide Strtoul;
    g := Guid(0, 0, 0, old4);
    ok := false;
    if At(s, 0) != '{' || !IsHex(At(s, 1)) {
      return;
    }
    var (v, e) := Strtoul(s, 1, Ulong(wide));
    g := g.(data1 := v % 0x1_0000_0000);
    if e != 9 {
      return;
    }
    if At(s, 9) != '-' || !IsHex(At(s, 10)) {
      return;
    }
    var (v2, e2) := Strtoul(s, 10, Ulong(wide));
    g := g.(data2 := v2 % 0x1_0000);
    if e2 != 14 || At(s, 14) != '-' || !IsHex(At(s, 15)) {
      return;
    }
    var (v3, e3) := Strtoul(s, 15, Ulong(wide));
    g := g.(data3 := v3 % 0x1_0000);
    if e3 != 19 || At(s, 19) != '-' || !IsHex(At(s, 20)) {
      return;
    }
    ok, g := ParseLast(s, g, wide);
  }

  method ParseLast(s: string, start: Guid, wide: bool) returns (ok: bool, g: Guid)
    requires |start.data4| == 8 && 20 <= |s|
    ensures (ok, if ok then g else Guid(0, 0, 0, g.data4)) == ParseTail(s, start, wide)
  {
    hide Strtoul;
    g := start;
    ok := false;
    var (w, e) := Strtoul(s, 20, Ulong(wide));
    if e != 24 {
      return;
    }
    g := g.(data4 := g.data4[0 := w / 256 % 256][1 := w % 256]);
    if At(s, 24) != '-' && !IsHex(At(s, 25)) {
      return;
    }
    var (x, e2) := Strtoul(s, 25, TWO_64);
    if e2 != 37 {
      return;
    }
    var high := x / 0x1_0000_0000;
    g := g.(data4 := g.data4[2 := high / 256 % 256][3 := high % 256][4 := x / 0x100_0000 % 256]
                            [5 := x / 0x1_0000 % 256][6 := x / 256 % 256][7 := x % 256]);
    if At(s, 37) != '}' || |s| != 38 {
      return;
    }
    ok := true;
  }

  // ---- Which texts are accepted, and what every text gives ----

  /** From `i` to `j` stand digits, the first of them perhaps behind a 0x, and no digit follows. */
  predicate Digits(s: string, i: nat, j: nat) {
    DigitsStart(s, i) < j <= |s| && AllHex(s[DigitsStart(s, i)..j]) && !IsHex(At(s, j))
  }

  /** The same behind any white space and a sign. */
  predicate Loose(s: string, i: nat, j: nat)
    decreases j - i
  {
    i < j <= |s| && if IsSpace(s[i]) then Loose(s, i + 1, j) else Digits(s, if IsSign(s[i]) then i + 1 else i, j)
  }

  function Amount(s: string, i: nat, j: nat): nat
    requires Digits(s, i, j)
  {
    Value(s[DigitsStart(s, i)..j])
  }

  /** A minus sign takes the amount modulo 2^64. */
  function LooseAmount(s: string, i: nat, j: nat): nat
    requires Loose(s, i, j)
    decreases j - i
  {
    if IsSpace(s[i]) then LooseAmount(s, i + 1, j)
    else if s[i] == '-' then (TWO_64 - Amount(s, i + 1, j)) % TWO_64
    else Amount(s, if s[i] == '+' then i + 1 else i, j)
  }

  /** Right up to the fourth field. */
  predicate HeadOk(s: string) {
    At(s, 0) == '{' && Digits(s, 1, 9) && At(s, 9) == '-' && Digits(s, 10, 14) && At(s, 14) == '-'
    && Digits(s, 15, 19) && At(s, 19) == '-' && Digits(s, 20, 24)
  }

  /** Right in the last field. Its first character need not be a digit when a hyphen stands
      before it, and the hyphen need not be there when it is one. */
  predicate TailOk(s: string) {
    (At(s, 24) == '-' || IsHex(At(s, 25))) && Loose(s, 25, 37)
  }

  predicate Accepts(s: string) {
    HeadOk(s) && TailOk(s) && |s| == 38 && s[37] == '}'
  }

  /** The result for any text: on success the fields; on failure as many bytes of the last field
      as had been read. */
  function Outcome(s: string, before: Guid): (bool, Guid)
    requires |before.data4| == 8
  {
    if !HeadOk(s) then (false, Guid(0, 0, 0, before.data4))
    else
      var two := Bytes(Amount(s, 20, 24), 2);
      if !TailOk(s) then (false, Guid(0, 0, 0, two + before.data4[2..]))
      else
        var all := two + Bytes(LooseAmount(s, 25, 37), 6);
        if Accepts(s) then (true, Guid(Amount(s, 1, 9), Amount(s, 10, 14), Amount(s, 15, 19), all))
        else (false, Guid(0, 0, 0, all))
  }

  lemma HexRange(s: string, i: nat, j: nat)
    requires i <= j <= |s| && AllHex(s[i..j])
    ensures forall k :: i <= k < j ==> IsHex(s[k])
  {
    forall k | i <= k < j ensures IsHex(s[k]) {
      assert s[i..j][k - i] == s[k];
    }
  }

  /** The scan for digits stops at `j` exactly when there are digits up to there. */
  lemma DigitsEnd(s: string, i: nat, j: nat)
    requires i <= |s|
    ensures var c := DigitsStart(s, i);
            c <= |s| && (c < j && SkipHex(s, c) == j <==> Digits(s, i, j))
  {
    var c := DigitsStart(s, i);
    if Digits(s, i, j) {
      HexRange(s, c, j);
      SkipHexTo(s, c, j);
    }
  }

  lemma AmountFits(s: string, i: nat, j: nat, width: nat)
    requires Digits(s, i, j) && j - i <= width
    ensures Amount(s, i, j) < Pow16(width)
  {
    hide Value;
    var c := DigitsStart(s, i);
    HexOfValue(s[c..j]);
    Pow16Grows(j - c, width);
  }

  /** A field that begins with a digit. */
  lemma DigitsRead(s: string, i: nat, j: nat, modulus: nat)
    requires i < j && IsHex(At(s, i)) && Pow16(j - i) <= modulus && modulus > 0
    ensures Strtoul(s, i, modulus).1 == j <==> Digits(s, i, j)
    ensures Digits(s, i, j) ==> Strtoul(s, i, modulus) == (Amount(s, i, j), j)
  {
    hide Value, Pow16, Digits, AllHex;
    DigitsEnd(s, i, j);
    assert SkipSpace(s, i) == i && !IsSign(At(s, i));
    if Digits(s, i, j) {
      AmountFits(s, i, j, j - i);
    }
  }

  lemma DigitsBegin(s: string, i: nat, j: nat)
    requires Digits(s, i, j)
    ensures i < j && IsHex(At(s, i))
  {
    HexRange(s, DigitsStart(s, i), j);
  }

  /** White space in front changes nothing, unless there is no number. */
  lemma SpaceRead(s: string, i: nat, modulus: nat)
    requires i < |s| && IsSpace(s[i]) && modulus > 0
    ensures var (here, next) := (Strtoul(s, i, modulus), Strtoul(s, i + 1, modulus));
            (here == next && here.1 > i + 1) || (here.1 == i && next.1 == i + 1)
  {
    hide Value;
    assert SkipSpace(s, i) == SkipSpace(s, i + 1);
  }

  /** A field that may begin with white space and a sign. */
  lemma {:induction false} LooseRead(s: string, i: nat, j: nat)
    requires i <= |s| && i < j <= i + 16
    ensures Strtoul(s, i, TWO_64).1 == j <==> Loose(s, i, j)
    ensures Loose(s, i, j) ==> Strtoul(s, i, TWO_64) == (LooseAmount(s, i, j), j)
    decreases j - i
  {
    hide Value, Pow16, Digits, AllHex;
    if i < |s| && IsSpace(s[i]) {
      SpaceRead(s, i, TWO_64);
      if i + 1 < j {
        LooseRead(s, i + 1, j);
      }
    } else {
      assert SkipSpace(s, i) == i;
      var b := if IsSign(At(s, i)) then i + 1 else i;
      DigitsEnd(s, b, j);
      if Digits(s, b, j) {
        AmountFits(s, b, j, 16);
        Below64(16);
      }
    }
  }

  lemma SmallPowers()
    ensures Pow16(4) == 0x1_0000 && Pow16(8) == 0x1_0000_0000
  {
    assert Pow16(4) == 0x1_0000;
    Pow16Add(4, 4);
  }

  lemma SetBytes(d: seq<nat>, a: seq<nat>, b: seq<nat>)
    requires |d| == 8 && |a| == 2 && |b| == 6
    ensures d[0 := a[0]][1 := a[1]] == a + d[2..]
    ensures d[0 := a[0]][1 := a[1]][2 := b[0]][3 := b[1]][4 := b[2]][5 := b[3]][6 := b[4]][7 := b[5]] == a + b
  {
  }

  lemma TailIs(s: string, g: Guid, wide: bool)
    requires |g.data4| == 8 && 20 <= |s| && IsHex(At(s, 20))
    ensures var two := if Digits(s, 20, 24) then Bytes(Amount(s, 20, 24), 2) else g.data4[..2];
            ParseTail(s, g, wide) ==
            if !Digits(s, 20, 24) || !TailOk(s) then (false, Guid(0, 0, 0, two + g.data4[2..]))
            else
              var all := two + Bytes(LooseAmount(s, 25, 37), 6);
              if |s| == 38 && s[37] == '}' then (true, g.(data4 := all)) else (false, Guid(0, 0, 0, all))
  {
    hide Strtoul, Value, Bytes, Pow16, Digits, Loose, Amount, LooseAmount;
    SmallPowers();
    DigitsRead(s, 20, 24, Ulong(wide));
    assert g.data4[..2] + g.data4[2..] == g.data4;
    if Digits(s, 20, 24) {
      var w := Amount(s, 20, 24);
      TwoBytes(w);
      SetBytes(g.data4, Bytes(w, 2), Bytes(0, 6));
      assert At(s, 24) == '-' || IsHex(At(s, 25)) ==> |s| >= 25;
      if At(s, 24) == '-' || IsHex(At(s, 25)) {
        LooseRead(s, 25, 37);
        if Loose(s, 25, 37) {
          var x := LooseAmount(s, 25, 37);
          SixBytes(x);
          SetBytes(g.data4, Bytes(w, 2), Bytes(x, 6));
        }
      }
    }
  }

  /** What every text gives, whatever the width of `unsigned long`. */
  lemma ParseIs(s: string, before: Guid, wide: bool)
    requires |before.data4| == 8
    ensures Parse(s, before, wide) == Outcome(s, before)
    ensures Outcome(s, before).0 ==> GuidOk(Outcome(s, before).1)
  {
    hide Strtoul, Value, Bytes, Pow16, Digits, Loose, Amount, LooseAmount, ParseTail, TailOk;
    SmallPowers();
    HeadIs(s, before, wide);
    if HeadOk(s) {
      DigitsBegin(s, 20, 24);
      assert 20 <= |s|;
      AmountFits(s, 1, 9, 8);
      AmountFits(s, 10, 14, 4);
      AmountFits(s, 15, 19, 4);
      TailIs(s, Guid(Amount(s, 1, 9), Amount(s, 10, 14), Amount(s, 15, 19), before.data4), wide);
    }
    OutcomeOk(s, before);
  }

  lemma DigitsIffBegin(s: string, i: nat, j: nat, modulus: nat)
    requires i < j && Pow16(j - i) <= modulus && modulus > 0
    ensures Digits(s, i, j) <==> IsHex(At(s, i)) && Strtoul(s, i, modulus).1 == j
    ensures Digits(s, i, j) ==> Strtoul(s, i, modulus) == (Amount(s, i, j), j) && Amount(s, i, j) < Pow16(j - i)
  {
    hide Strtoul, Value, Pow16, Digits, Amount;
    if Digits(s, i, j) {
      DigitsBegin(s, i, j);
      AmountFits(s, i, j, j - i);
    }
    if IsHex(At(s, i)) {
      DigitsRead(s, i, j, modulus);
    }
  }

  /** The first four fields: the rest is parsed if the first three are right and a digit begins
      the fourth. */
  lemma HeadIs(s: string, before: Guid, wide: bool)
    requires |before.data4| == 8
    ensures HeadOk(s) ==> 20 <= |s| && IsHex(At(s, 20))
    ensures HeadOk(s) ==>
              Parse(s, before, wide) ==
              ParseTail(s, Guid(Amount(s, 1, 9), Amount(s, 10, 14), Amount(s, 15, 19), before.data4), wide)
    ensures !HeadOk(s) ==> Parse(s, before, wide) == (false, Guid(0, 0, 0, before.data4))
  {
    hide Strtoul, Value, Bytes, Pow16, Digits, Amount, ParseTail, IsHex;
    SmallPowers();
    DigitsIffBegin(s, 1, 9, Ulong(wide));
    DigitsIffBegin(s, 10, 14, Ulong(wide));
    DigitsIffBegin(s, 15, 19, Ulong(wide));
    DigitsIffBegin(s, 20, 24, Ulong(wide));
    NoDigit(s, 20);
    var (ok, g) := Parse(s, before, wide);
    if At(s, 0) == '{' && Digits(s, 1, 9) && At(s, 9) == '-' && Digits(s, 10, 14) && At(s, 14) == '-' && Digits(s, 15, 19)
       && At(s, 19) == '-' && IsHex(At(s, 20)) && !Digits(s, 20, 24) {
      TailIs(s, Guid(Amount(s, 1, 9), Amount(s, 10, 14), Amount(s, 15, 19), before.data4), wide);
      assert before.data4[..2] + before.data4[2..] == before.data4;
    }
  }

  lemma NoDigit(s: string, i: nat)
    ensures IsHex(At(s, i)) ==> i < |s|
  {
  }

  lemma OutcomeOk(s: string, before: Guid)
    requires |before.data4| == 8
    ensures Outcome(s, before).0 <==> Accepts(s)
    ensures Accepts(s) ==> GuidOk(Outcome(s, before).1)
  {
    hide Digits, Loose, Amount, LooseAmount, Bytes, Pow16;
    SmallPowers();
    if Accepts(s) {
      AmountFits(s, 1, 9, 8);
      AmountFits(s, 10, 14, 4);
      AmountFits(s, 15, 19, 4);
    }
  }

  /** A text is accepted exactly by its characters. */
  lemma AcceptsIff(s: string, before: Guid, wide: bool)
    requires |before.data4| == 8
    ensures Parse(s, before, wide).0 <==> Accepts(s)
  {
    hide Parse, Outcome, Accepts;
    ParseIs(s, before, wide);
    OutcomeOk(s, before);
  }

  lemma TwoBytes(w: nat)
    ensures Bytes(w, 2) == [w / 256 % 256, w % 256]
  {
    assert Bytes(w / 256, 1) == Bytes(w / 256 / 256, 0) + [w / 256 % 256];
  }

  lemma SixBytes(x: nat)
    ensures Bytes(x, 6) == [x / 0x1_0000_0000 / 256 % 256, x / 0x1_0000_0000 % 256, x / 0x100_0000 % 256, x / 0x1_0000 % 256,
                            x / 256 % 256, x % 256]
  {
    hide Bytes;
    BytesStep(x, 6);
    BytesStep(x / 256, 5);
    BytesStep(x / 256 / 256, 4);
    BytesStep(x / 256 / 256 / 256, 3);
    TwoBytes(x / 256 / 256 / 256 / 256);
    Shifts(x);
  }

  lemma Shifts(x: nat)
    ensures x / 256 / 256 == x / 0x1_0000
    ensures x / 256 / 256 / 256 == x / 0x100_0000
    ensures x / 256 / 256 / 256 / 256 == x / 0x1_0000_0000
  {
    var a := x / 256 / 256;
    assert a == x / 0x1_0000;
    var b := a / 256;
    assert b == x / 0x100_0000;
    assert b / 256 == x / 0x1_0000_0000;
  }

  lemma BytesStep(x: nat, n: nat)
    requires n > 0
    ensures Bytes(x, n) == Bytes(x / 256, n - 1) + [x % 256]
  {
  }

  // ---- Round trips ----

  /** {8 digits - 4 - 4 - 4 - 12} */
  predicate Canonical(s: string) {
    && |s| == 38 && s[0] == '{' && s[9] == s[14] == s[19] == s[24] == '-' && s[37] == '}'
    && AllHex(s[1..9]) && AllHex(s[10..14]) && AllHex(s[15..19]) && AllHex(s[20..24]) && AllHex(s[25..37])
  }

  /** What a canonical text means. */
  function Meaning(s: string): Guid
    requires Canonical(s)
  {
    Guid(Value(s[1..9]), Value(s[10..14]), Value(s[15..19]), Bytes(Value(s[20..24]), 2) + Bytes(Value(s[25..37]), 6))
  }

  /** A field of digits alone. */
  lemma PlainDigits(s: string, i: nat, j: nat)
    requires i + 2 <= j <= |s| && AllHex(s[i..j]) && !IsHex(At(s, j))
    ensures Digits(s, i, j) && Amount(s, i, j) == Value(s[i..j]) && Loose(s, i, j) && LooseAmount(s, i, j) == Value(s[i..j])
  {
    hide Value;
    HexRange(s, i, j);
    assert IsHex(s[i]) && IsHex(s[i + 1]);
    assert DigitsStart(s, i) == i;
  }

  lemma CanonicalIsAccepted(s: string, before: Guid)
    requires Canonical(s) && |before.data4| == 8
    ensures Accepts(s) && Outcome(s, before) == (true, Meaning(s))
  {
    hide Digits, Loose, Amount, LooseAmount, Value, Bytes, AllHex;
    PlainDigits(s, 1, 9);
    PlainDigits(s, 10, 14);
    PlainDigits(s, 15, 19);
    PlainDigits(s, 20, 24);
    PlainDigits(s, 25, 37);
  }

  lemma ParseCanonical(s: string, before: Guid, wide: bool)
    requires Canonical(s) && |before.data4| == 8
    ensures Parse(s, before, wide) == (true, Meaning(s)) && GuidOk(Meaning(s))
  {
    hide Parse, Canonical, Outcome, Meaning, Accepts;
    ParseIs(s, before, wide);
    CanonicalIsAccepted(s, before);
  }

  /** The printed form is canonical and means the GUID. */
  lemma PrintIsCanonical(g: Guid)
    requires GuidOk(g)
    ensures Canonical(Print(g)) && Meaning(Print(g)) == g
  {
    hide Hex, HexBytes, Value, Bytes, Number, Pow16;
    var s := Print(g);
    assert s[1..9] == Hex(g.data1, 8);
    assert s[10..14] == Hex(g.data2, 4);
    assert s[15..19] == Hex(g.data3, 4);
    assert s[20..24] == HexBytes(g.data4[..2]);
    assert s[25..37] == HexBytes(g.data4[2..]);
    SmallPowers();
    ValueOfHex(g.data1, 8);
    ValueOfHex(g.data2, 4);
    ValueOfHex(g.data3, 4);
    BytesOfParts(g);
    ValueOfBytes(g.data4[..2]);
    ValueOfBytes(g.data4[2..]);
    BytesOfNumber(g.data4[..2]);
    BytesOfNumber(g.data4[2..]);
    assert g.data4 == g.data4[..2] + g.data4[2..];
  }

  lemma BytesOfParts(g: Guid)
    requires GuidOk(g)
    ensures BytesOk(g.data4[..2]) && BytesOk(g.data4[2..])
  {
    forall i | 0 <= i < 8 ensures g.data4[i] < 256 {
      assert g.data4[i] in g.data4;
    }
  }

  /** Parsing the printed form of any GUID gives it back. */
  lemma ParsePrint(g: Guid, before: Guid, wide: bool)
    requires GuidOk(g) && |before.data4| == 8
    ensures Parse(Print(g), before, wide) == (true, g)
  {
    hide Parse, Print, Meaning, Canonical;
    PrintIsCanonical(g);
    ParseCanonical(Print(g), before, wide);
  }

  /** Printing what a canonical text means gives it back in upper case. */
  lemma PrintMeaning(s: string)
    requires Canonical(s) && GuidOk(Meaning(s))
    ensures Print(Meaning(s)) == Upper(s)
  {
    hide Hex, HexBytes, Value, Bytes;
    HexOfValue(s[1..9]);
    HexOfValue(s[10..14]);
    HexOfValue(s[15..19]);
    HexOfValue(s[20..24]);
    HexOfValue(s[25..37]);
    HexOfBytes(Value(s[20..24]), 2);
    HexOfBytes(Value(s[25..37]), 6);
    var g := Meaning(s);
    assert g.data4[..2] == Bytes(Value(s[20..24]), 2) && g.data4[2..] == Bytes(Value(s[25..37]), 6);
    UpperParts(s);
  }

  lemma UpperParts(s: string)
    requires Canonical(s)
    ensures Upper(s) == "{" + Upper(s[1..9]) + "-" + Upper(s[10..14]) + "-" + Upper(s[15..19]) + "-" + Upper(s[20..24]) + "-"
                        + Upper(s[25..37]) + "}"
  {
  }

  /** Upper case makes no other text canonical. */
  lemma UpperCanonical(s: string)
    requires Canonical(Upper(s))
    ensures Canonical(s)
  {
    var u := Upper(s);
    HexRange(u, 1, 9);
    HexRange(u, 10, 14);
    HexRange(u, 15, 19);
    HexRange(u, 20, 24);
    HexRange(u, 25, 37);
  }

  /** Of the texts that are accepted, exactly the canonical ones are printed again as they
      were, in upper case. */
  lemma PrintParse(s: string, before: Guid, wide: bool)
    requires Accepts(s) && |before.data4| == 8
    ensures Parse(s, before, wide).0 && GuidOk(Parse(s, before, wide).1)
    ensures Print(Parse(s, before, wide).1) == Upper(s) <==> Canonical(s)
  {
    hide Parse, Accepts, Canonical, Meaning, Outcome, Print;
    ParseIs(s, before, wide);
    OutcomeOk(s, before);
    var g := Parse(s, before, wide).1;
    if Canonical(s) {
      ParseCanonical(s, before, wide);
      PrintMeaning(s);
    }
    PrintIsCanonical(g);
    if Print(g) == Upper(s) {
      UpperCanonical(s);
    }
  }

  /** The last hyphen is hardly checked: in its place every character is accepted that is no
      hexadecimal digit, and the text means the same. */
  lemma LastHyphenIsFree(s: string, c: char, before: Guid, wide: bool)
    requires Canonical(s) && |before.data4| == 8
    ensures Parse(s[24 := c], before, wide).0 <==> !IsHex(c)
    ensures !IsHex(c) ==> Parse(s[24 := c], before, wide) == Parse(s, before, wide)
    ensures Canonical(s[24 := c]) <==> c == '-'
  {
    hide Parse, Digits, Loose, Amount, LooseAmount, Value, Bytes, AllHex;
    var t := s[24 := c];
    SameRanges(s, t, c);
    ParseIs(t, before, wide);
    ParseCanonical(s, before, wide);
    if IsHex(c) {
      DigitAfter(t, 20, 24);
    } else {
      PlainDigits(t, 1, 9);
      PlainDigits(t, 10, 14);
      PlainDigits(t, 15, 19);
      PlainDigits(t, 20, 24);
      PlainDigits(t, 25, 37);
      assert IsHex(At(t, 25)) by { HexRange(t, 25, 37); }
    }
  }

  lemma SameRanges(s: string, t: string, c: char)
    requires |s| == 38 && t == s[24 := c]
    ensures t[1..9] == s[1..9] && t[10..14] == s[10..14] && t[15..19] == s[15..19] && t[20..24] == s[20..24] && t[25..37] == s[25..37]
  {
  }

  lemma DigitAfter(s: string, i: nat, j: nat)
    ensures IsHex(At(s, j)) ==> !Digits(s, i, j)
  {
  }

  /** Nor, behind the hyphen, is the first character of the last field: white space and a sign
      are accepted there too. */
  lemma LastFieldIsLoose(s: string, c: char, before: Guid, wide: bool)
    requires Canonical(s) && |before.data4| == 8
    ensures Parse(s[25 := c], before, wide).0 <==>
            IsHex(c) || c == ' ' || 9 <= c as int <= 13 || c == '+' || c == '-'
    ensures Canonical(s[25 := c]) <==> IsHex(c)
  {
    hide Parse, Digits, Loose, Amount, LooseAmount, Value, Bytes, AllHex, Outcome;
    var t := s[25 := c];
    assert t[1..9] == s[1..9] && t[10..14] == s[10..14] && t[15..19] == s[15..19] && t[20..24] == s[20..24];
    assert t[26..37] == s[26..37];
    AcceptsIff(t, before, wide);
    PlainDigits(t, 1, 9);
    PlainDigits(t, 10, 14);
    PlainDigits(t, 15, 19);
    PlainDigits(t, 20, 24);
    FirstIsLoose(s, t, c);
  }

  lemma FirstIsLoose(s: string, t: string, c: char)
    requires |s| == 38 && t == s[25 := c] && AllHex(s[25..37]) && s[37] == '}'
    ensures Loose(t, 25, 37) <==> IsHex(c) || IsSpace(c) || IsSign(c)
    ensures AllHex(t[25..37]) <==> IsHex(c)
  {
    HexRange(s, 25, 37);
    assert forall k :: 26 <= k < 37 ==> t[k] == s[k] && IsHex(t[k]);
    PlainDigits(t, 26, 37);
    assert t[25..37][0] == c;
    if IsHex(c) {
      PlainDigits(t, 25, 37);
    } else {
      assert DigitsStart(t, 25) == 25;
    }
  }

  /** A field may begin with 0x and hold that many digits less. */
  lemma PrefixIsAccepted(s: string, before: Guid, wide: bool)
    requires Canonical(s) && |before.data4| == 8
    ensures Parse(s[10 := '0'][11 := 'x'], before, wide) ==
            (true, Meaning(s).(data2 := Value(s[12..14])))
  {
    hide Parse, Digits, Loose, Amount, LooseAmount, Value, Bytes, AllHex;
    var t := s[10 := '0'][11 := 'x'];
    assert t[1..9] == s[1..9] && t[15..19] == s[15..19] && t[20..24] == s[20..24] && t[25..37] == s[25..37] && t[12..14] == s[12..14];
    ParseIs(t, before, wide);
    PlainDigits(t, 1, 9);
    PrefixedField(s, t);
    PlainDigits(t, 15, 19);
    PlainDigits(t, 20, 24);
    PlainDigits(t, 25, 37);
  }

  lemma PrefixedField(s: string, t: string)
    requires |s| == 38 && AllHex(s[10..14]) && s[14] == '-' && t == s[10 := '0'][11 := 'x']
    ensures AllHex(s[12..14]) && Digits(t, 10, 14) && Amount(t, 10, 14) == Value(s[12..14])
  {
    hide Value;
    HexRange(s, 10, 14);
    assert t[12..14] == s[12..14];
    assert Prefixed(t, 10);
  }

  // ---- What a refusal leaves ----

  const NULL_GUID := Guid(0, 0, 0, [0, 0, 0, 0, 0, 0, 0, 0])

  /** The digits that count in a field are all 0. */
  predicate ZeroDigits(s: string, i: nat, j: nat) {
    forall k :: DigitsStart(s, i) <= k < j && k < |s| ==> s[k] == '0'
  }

  predicate ZeroLoose(s: string, i: nat, j: nat)
    decreases j - i
  {
    if i < j && i < |s| && IsSpace(s[i]) then ZeroLoose(s, i + 1, j)
    else ZeroDigits(s, if IsSign(At(s, i)) then i + 1 else i, j)
  }

  /** Does a text that is refused leave the null GUID in a result that was `before`? */
  predicate LeavesNull(s: string, before: Guid)
    requires |before.data4| == 8
  {
    if !HeadOk(s) then before.data4 == NULL_GUID.data4
    else if !TailOk(s) then ZeroDigits(s, 20, 24) && before.data4[2..] == NULL_GUID.data4[2..]
    else ZeroDigits(s, 20, 24) && ZeroLoose(s, 25, 37)
  }

  lemma {:induction false} ZeroValue(t: string)
    requires AllHex(t)
    ensures Value(t) == 0 <==> forall k :: 0 <= k < |t| ==> t[k] == '0'
  {
    if t != "" {
      hide Value;
      ValueStep(t);
      var front := t[..|t| - 1];
      ZeroValue(front);
      assert DigitValue(t[|t| - 1]) == 0 <==> t[|t| - 1] == '0';
      if Value(t) == 0 {
        forall k | 0 <= k < |t| ensures t[k] == '0' {
          assert k < |t| - 1 ==> front[k] == t[k];
        }
      }
    }
  }

  lemma ZeroAmount(s: string, i: nat, j: nat)
    requires Digits(s, i, j)
    ensures Amount(s, i, j) == 0 <==> ZeroDigits(s, i, j)
  {
    hide Value;
    var c := DigitsStart(s, i);
    var t := s[c..j];
    ZeroValue(t);
    assert forall k :: 0 <= k < |t| ==> t[k] == s[c + k];
    assert forall k :: c <= k < j ==> s[k] == t[k - c];
  }

  const TWO_48: nat := 0x1_0000_0000_0000

  /** The last six bytes of an amount with a minus sign are zero only for zero. */
  lemma {:induction false} ZeroLooseAmount(s: string, i: nat, j: nat)
    requires Loose(s, i, j) && j - i <= 12
    ensures LooseAmount(s, i, j) % TWO_48 == 0 <==> ZeroLoose(s, i, j)
    decreases j - i
  {
    hide Amount, Digits, ZeroDigits;
    if IsSpace(s[i]) {
      ZeroLooseAmount(s, i + 1, j);
    } else {
      var b := if IsSign(s[i]) then i + 1 else i;
      ZeroAmount(s, b, j);
      AmountFits(s, b, j, 12);
      TwelveDigits();
      NegatedZero(Amount(s, b, j));
    }
  }

  lemma TwelveDigits()
    ensures Pow16(12) == TWO_48
  {
    SmallPowers();
    Pow16Add(8, 4);
  }

  lemma NegatedZero(v: nat)
    requires v < TWO_48
    ensures v % TWO_48 == 0 <==> v == 0
    ensures ((TWO_64 - v) % TWO_64) % TWO_48 == 0 <==> v == 0
  {
    if v > 0 {
      assert (TWO_64 - v) % TWO_64 == TWO_64 - v;
    }
  }

  lemma ZeroTwo(w: nat)
    requires w < 0x1_0000
    ensures Bytes(w, 2) == [0, 0] <==> w == 0
  {
    hide Bytes;
    TwoBytes(w);
  }

  lemma AllZero(v: nat, n: nat)
    ensures n > 0 ==> (Bytes(v, n) == Zeros(n) <==> v % 256 == 0 && Bytes(v / 256, n - 1) == Zeros(n - 1))
    ensures Bytes(v, 0) == Zeros(0)
  {
    if n > 0 {
      var b, rest := Bytes(v, n), Bytes(v / 256, n - 1);
      assert b[n - 1] == v % 256 && b[..n - 1] == rest;
      assert Zeros(n)[..n - 1] == Zeros(n - 1) && Zeros(n)[n - 1] == 0;
      assert Zeros(n) == Zeros(n - 1) + [0];
    }
  }

  function Zeros(n: nat): (z: seq<nat>)
    ensures |z| == n && forall i :: 0 <= i < n ==> z[i] == 0
  {
    seq(n, _ => 0)
  }

  lemma LowByte(v: nat, p: nat)
    requires p > 0
    ensures v % (256 * p) == 0 <==> v % 256 == 0 && v / 256 % p == 0
  {
    if v % (256 * p) == 0 {
      var q := v / (256 * p);
      assert v == 256 * (p * q);
      Multiple(p, q);
    }
    if v % 256 == 0 && v / 256 % p == 0 {
      var q := v / 256 / p;
      assert v == (256 * p) * q;
      Multiple(256 * p, q);
    }
  }

  lemma Multiple(p: nat, q: nat)
    requires p > 0
    ensures (p * q) % p == 0
  {
    var r := (p * q) % p;
    assert p * (q - (p * q) / p) == r;
    NoMultiple(p, q - (p * q) / p);
  }

  lemma NoMultiple(p: int, d: int)
    requires 0 <= p * d < p
    ensures p * d == 0
  {
  }

  lemma {:induction false} ZeroBytes(v: nat, n: nat)
    ensures Bytes(v, n) == Zeros(n) <==> v % Pow16(2 * n) == 0
  {
    hide Bytes;
    AllZero(v, n);
    if n > 0 {
      ZeroBytes(v / 256, n - 1);
      LowByte(v, Pow16(2 * (n - 1)));
      assert Pow16(2 * n) == 256 * Pow16(2 * (n - 1));
    }
  }

  lemma ZeroSix(x: nat)
    ensures Bytes(x, 6) == [0, 0, 0, 0, 0, 0] <==> x % TWO_48 == 0
  {
    hide Bytes, Pow16;
    ZeroBytes(x, 6);
    TwelveDigits();
    assert Zeros(6) == [0, 0, 0, 0, 0, 0];
  }

  /** What a refused text leaves: as much of the last field as had been read, which is the null
      GUID exactly under a condition on the text and on what was there before. */
  lemma RefusalLeaves(s: string, before: Guid, wide: bool)
    requires !Accepts(s) && |before.data4| == 8
    ensures Parse(s, before, wide) == Outcome(s, before)
    ensures Parse(s, before, wide) == (false, NULL_GUID) <==> LeavesNull(s, before)
  {
    hide Parse, Digits, Loose, Amount, LooseAmount, Bytes, ZeroDigits, ZeroLoose, Accepts, TailOk, Pow16;
    ParseIs(s, before, wide);
    if HeadOk(s) {
      var w := Amount(s, 20, 24);
      AmountFits(s, 20, 24, 4);
      SmallPowers();
      ZeroTwo(w);
      ZeroAmount(s, 20, 24);
      JoinIsNull(Bytes(w, 2), before.data4[2..]);
      if TailOk(s) {
        TailIsLoose(s);
        var x := LooseAmount(s, 25, 37);
        ZeroSix(x);
        ZeroLooseAmount(s, 25, 37);
        JoinIsNull(Bytes(w, 2), Bytes(x, 6));
      }
    }
  }

  lemma TailIsLoose(s: string)
    requires TailOk(s)
    ensures Loose(s, 25, 37)
  {
  }

  lemma JoinIsNull(a: seq<nat>, b: seq<nat>)
    requires |a| == 2 && |b| == 6
    ensures a + b == NULL_GUID.data4 <==> a == [0, 0] && b == [0, 0, 0, 0, 0, 0]
    ensures NULL_GUID.data4[2..] == [0, 0, 0, 0, 0, 0]
  {
    var n := NULL_GUID.data4;
    if a + b == n {
      assert a == (a + b)[..2] == n[..2];
      assert b == (a + b)[2..] == n[2..];
    }
  }

  /** Without its brace a text is refused, but the last field keeps what was read. */
  lemma FailureKeepsBytes(s: string, before: Guid, wide: bool)
    requires Canonical(s) && |before.data4| == 8
    ensures Parse(s[..37], before, wide) == (false, Guid(0, 0, 0, Meaning(s).data4))
  {
    hide Parse, Digits, Loose, Amount, LooseAmount, Value, Bytes, AllHex;
    var t := s[..37];
    assert t[1..9] == s[1..9] && t[10..14] == s[10..14] && t[15..19] == s[15..19] && t[20..24] == s[20..24] && t[25..37] == s[25..37];
    ParseIs(t, before, wide);
    PlainDigits(t, 1, 9);
    PlainDigits(t, 10, 14);
    PlainDigits(t, 15, 19);
    PlainDigits(t, 20, 24);
    PlainDigits(t, 25, 37);
  }
}
