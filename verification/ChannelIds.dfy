/** Allocation of channel ids: `set_channel` and `register_channel`
    (MessageConnection.cpp:429-445, 447-478). */
module ChannelIds {

  // ---- Bits of natural numbers ----

  function Pow2(k: nat): (p: nat)
    ensures p > 0
  {
    if k == 0 then 1 else 2 * Pow2(k - 1)
  }

  const UINT32 := 0x1_0000_0000

  function And(x: nat, y: nat): nat {
    if x == 0 || y == 0 then 0 else (x % 2) * (y % 2) + 2 * And(x / 2, y / 2)
  }

  function Or(x: nat, y: nat): nat {
    if x == 0 then y else if y == 0 then x
    else (if x % 2 + y % 2 == 0 then 0 else 1) + 2 * Or(x / 2, y / 2)
  }

  lemma {:induction false} AndBits(x: nat, y: nat)
    ensures And(x, y) % 2 == (x % 2) * (y % 2) && And(x, y) / 2 == And(x / 2, y / 2)
  {
    var b := (x % 2) * (y % 2);
    if x == 0 || y == 0 {
      assert b == 0 && And(x / 2, y / 2) == 0;
    } else {
      BitAndRest(b, And(x / 2, y / 2));
    }
  }

  lemma BitAndRest(b: nat, rest: nat)
    requires b < 2
    ensures (b + 2 * rest) % 2 == b && (b + 2 * rest) / 2 == rest
  {
  }

  lemma {:induction false} OrBits(x: nat, y: nat)
    ensures Or(x, y) % 2 == (if x % 2 + y % 2 == 0 then 0 else 1) && Or(x, y) / 2 == Or(x / 2, y / 2)
  {
  }

  lemma Halves(x: nat, y: nat)
    requires x % 2 == y % 2 && x / 2 == y / 2
    ensures x == y
  {
  }

  lemma {:induction false} AndIsMod(x: nat, k: nat)
    ensures And(x, Pow2(k) - 1) == x % Pow2(k)
  {
    if k > 0 {
      AndIsMod(x / 2, k - 1);
      AndIsModStep(x, Pow2(k - 1));
    }
  }

  lemma AndOdd(x: nat, h: nat)
    ensures And(x, 2 * h + 1) == x % 2 + 2 * And(x / 2, h)
  {
    hide And;
    var y := 2 * h + 1;
    AndBits(x, y);
    assert y % 2 == 1 && y / 2 == h;
    assert And(x, y) == 2 * (And(x, y) / 2) + And(x, y) % 2;
  }

  lemma AndIsModStep(x: nat, p: nat)
    requires p > 0 && And(x / 2, p - 1) == (x / 2) % p
    ensures And(x, 2 * p - 1) == x % (2 * p)
  {
    hide And;
    ModHalves(x, p);
    AndOdd(x, p - 1);
  }

  lemma ModHalves(x: nat, p: nat)
    requires p > 0
    ensures x % (2 * p) == x % 2 + 2 * ((x / 2) % p)
  {
    var q, r := (x / 2) / p, (x / 2) % p;
    assert x == (2 * p) * q + (x % 2 + 2 * r) by {
      assert x / 2 == p * q + r;
    }
    ModIs(x, 2 * p, q, x % 2 + 2 * r);
  }

  lemma NoMultiple(p: int, d: int)
    requires -p < p * d < p
    ensures d == 0
  {
  }

  lemma ModIs(x: nat, p: nat, q: nat, r: nat)
    requires p > 0 && x == p * q + r && r < p
    ensures x % p == r && x / p == q
  {
    assert p * (q - x / p) == x % p - r;
    NoMultiple(p, q - x / p);
  }

  lemma ModMod(n: nat, p: nat, k: nat)
    requires p > 0 && k > 0
    ensures p * k > 0 && (n % (p * k)) % p == n % p
  {
    var all := p * k;
    var r, w := n % all, n / all;
    var q := r / p;
    assert all * w == p * (k * w);
    assert p * (k * w + q) == p * (k * w) + p * q;
    ModIs(n, p, k * w + q, r % p);
  }

  /** Disjoint bits are added. */
  lemma {:induction false} OrIsSum(x: nat, y: nat)
    requires And(x, y) == 0
    ensures Or(x, y) == x + y
  {
    if x > 0 && y > 0 {
      AndBits(x, y);
      OrIsSum(x / 2, y / 2);
    }
  }

  lemma {:induction false} AndOr(x: nat, y: nat, m: nat)
    ensures And(Or(x, y), m) == Or(And(x, m), And(y, m))
  {
    if x > 0 && y > 0 && m > 0 {
      AndOr(x / 2, y / 2, m / 2);
      OrBits(x, y);
      AndBits(x, m);
      AndBits(y, m);
      AndBits(Or(x, y), m);
      OrBits(And(x, m), And(y, m));
      Halves(And(Or(x, y), m), Or(And(x, m), And(y, m)));
    }
  }

  /** `x` has only bits of `y`. */
  predicate Within(x: nat, y: nat) {
    And(x, y) == x
  }

  lemma {:induction false} WithinDisjoint(x: nat, y: nat, m: nat)
    requires Within(x, y) && And(y, m) == 0
    ensures And(x, m) == 0
  {
    if x > 0 && m > 0 && y > 0 {
      AndBits(x, y);
      AndBits(y, m);
      AndBits(x, m);
      WithinDisjoint(x / 2, y / 2, m / 2);
    }
  }

  lemma {:induction false} AndCommutes(x: nat, y: nat)
    ensures And(x, y) == And(y, x)
  {
    if x > 0 && y > 0 {
      AndCommutes(x / 2, y / 2);
    }
  }

  lemma AndDouble(x: nat, y: nat)
    ensures And(2 * x, 2 * y) == 2 * And(x, y)
  {
    AndBits(2 * x, 2 * y);
    Halves(And(2 * x, 2 * y), 2 * And(x, y));
  }

  lemma TimesDouble(x: nat, p: nat)
    ensures x * (2 * p) == 2 * (x * p)
  {
  }

  lemma {:induction false} AndShifted(x: nat, y: nat, s: nat)
    ensures And(x * Pow2(s), y * Pow2(s)) == And(x, y) * Pow2(s)
  {
    hide And;
    if s > 0 {
      AndShifted(x, y, s - 1);
      var p := Pow2(s - 1);
      TimesDouble(x, p);
      TimesDouble(y, p);
      TimesDouble(And(x, y), p);
      AndDouble(x * p, y * p);
    }
  }

  lemma {:induction false} ModWithin(x: nat, k: nat)
    ensures Within(x % Pow2(k), Pow2(k) - 1)
  {
    AndIsMod(x % Pow2(k), k);
    SmallMod(x % Pow2(k), Pow2(k));
  }

  lemma SmallMod(x: nat, p: nat)
    requires x < p
    ensures x % p == x
  {
  }

  lemma HalveMask(mask: nat, shift: nat)
    requires mask % 2 == 0
    ensures (mask / 2) * Pow2(shift + 1) == mask * Pow2(shift)
  {
    TimesDouble(mask / 2, Pow2(shift));
    TimesDouble(Pow2(shift), mask / 2);
    assert 2 * (mask / 2) == mask;
  }

  lemma NoShift(x: nat)
    ensures x * Pow2(0) == x
  {
  }

  /** A number has only one odd part. */
  lemma {:induction false} OddPart(a: nat, s: nat, b: nat, t: nat)
    requires a % 2 == 1 && b % 2 == 1 && a * Pow2(s) == b * Pow2(t)
    ensures a == b && s == t
  {
    if s > 0 && t > 0 {
      TimesDouble(a, Pow2(s - 1));
      TimesDouble(b, Pow2(t - 1));
      OddPart(a, s - 1, b, t - 1);
    } else if s > 0 {
      NoShift(b);
      IsEven(a, s);
    } else if t > 0 {
      NoShift(a);
      IsEven(b, t);
    }
  }

  lemma IsEven(a: nat, s: nat)
    requires s > 0
    ensures (a * Pow2(s)) % 2 == 0
  {
    TimesDouble(a, Pow2(s - 1));
  }

  lemma OddRun(bits: nat)
    requires bits > 0
    ensures (Pow2(bits) - 1) % 2 == 1
  {
    assert Pow2(bits) == 2 * Pow2(bits - 1);
  }

  lemma BitSquare(b: nat)
    requires b < 2
    ensures b * b == b
  {
  }

  lemma {:induction false} AndItself(x: nat)
    ensures Within(x, x)
  {
    if x > 0 {
      BitSquare(x % 2);
      AndItself(x / 2);
    }
  }

  // ---- The handler ----

  type Connection = nat

  class MessageHandler {
    var channelId: nat
    var channelMask: nat
    var childMask: nat
    var upstream: nat
    var nextId: nat
    var nextMask: nat
    var nextShift: nat
    var connections: map<nat, Connection>

    constructor ()
      ensures channelId == channelMask == childMask == upstream == nextId == nextMask == nextShift == 0
      ensures connections == map[]
    {
      channelId, channelMask, childMask, upstream, nextId, nextMask, nextShift := 0, 0, 0, 0, 0, 0, 0;
      connections := map[];
    }

    /** What the allocator needs: the child mask is one run of `bits` bits. */
    predicate Ready(bits: nat)
      reads this
    {
      && nextMask == Pow2(bits) - 1 && 0 < bits <= 32
      && nextMask * Pow2(nextShift) == childMask
      && Within(channelId, channelMask) && And(channelId, childMask) == 0
      && nextId < UINT32
    }

    /** The loop ends because a child mask has a bit. When the mask is a run of `bits` bits
        above `k` others, the allocator is ready. */
    method SetChannel(id: nat, mask: nat, child: nat, up: nat, ghost bits: nat, ghost k: nat)
      requires child > 0
      requires Within(id, mask) && And(id, child) == 0
      modifies this
      ensures channelId == id && channelMask == mask && childMask == child && upstream == up
      ensures nextId == old(nextId) && connections == old(connections)
      ensures nextMask * Pow2(nextShift) == childMask && nextMask % 2 == 1
      ensures 0 < bits <= 32 && nextId < UINT32 && child == (Pow2(bits) - 1) * Pow2(k) ==> Ready(bits) && nextShift == k
    {
      hide Pow2, And;
      channelId, channelMask, childMask, upstream := id, mask, child, up;
      nextMask, nextShift := child, 0;
      assert nextMask * Pow2(nextShift) == child by { NoShift(child); }
      while nextMask % 2 == 0
        invariant nextMask > 0 && nextMask * Pow2(nextShift) == child
        invariant channelId == id && channelMask == mask && childMask == child && upstream == up
        invariant nextId == old(nextId) && connections == old(connections)
        decreases nextMask
      {
        HalveMask(nextMask, nextShift);
        nextMask, nextShift := nextMask / 2, nextShift + 1;
      }
      if 0 < bits && child == (Pow2(bits) - 1) * Pow2(k) {
        OddRun(bits);
        OddPart(nextMask, nextShift, Pow2(bits) - 1, k);
      }
    }

    /** The root process (RootManager.cpp:53). */
    method SetRootChannel()
      requires nextId < UINT32
      modifies this
      ensures Ready(7) && nextShift == 24 && channelId == 0x8000_0000 && upstream == 0
      ensures childMask == 0x7F00_0000 && channelMask == 0x8000_0000 && And(childMask, channelMask) == 0
      ensures nextId == old(nextId) && connections == old(connections)
    {
      hide And, Within, Pow2;
      RootMasks();
      AndCommutes(0x7F00_0000, 0x8000_0000);
      AndItself(0x8000_0000);
      SetChannel(0x8000_0000, 0x8000_0000, 0x7F00_0000, 0, 7, 24);
    }

    /** A user process, with the id root gave it (UserManager.cpp:276). */
    method SetUserChannel(ourChannel: nat)
      requires nextId < UINT32 && Within(ourChannel, 0xFF00_0000)
      modifies this
      ensures Ready(12) && nextShift == 12 && channelId == ourChannel && upstream == 0x8000_0000
      ensures childMask == 0x00FF_F000 && channelMask == 0xFF00_0000 && And(childMask, channelMask) == 0
      ensures nextId == old(nextId) && connections == old(connections)
    {
      hide And, Within, Pow2;
      UserMasks();
      AndCommutes(0x00FF_F000, 0xFF00_0000);
      WithinDisjoint(ourChannel, 0xFF00_0000, 0x00FF_F000);
      SetChannel(ourChannel, 0xFF00_0000, 0x00FF_F000, 0x8000_0000, 12, 12);
    }

    /** Counts up to the next free id. `steps` counts the ids tried. */
    method NextFree(ghost bits: nat) returns (id: nat, ghost steps: nat)
      requires Ready(bits) && |connections| < nextMask - 1
      modifies this`nextId
      ensures id == Candidate(channelId, nextMask, nextShift, old(nextId) + steps) && 0 < steps <= nextMask + 1
      ensures id != channelId && id != 0 && id !in connections
      ensures Taken(channelId, nextMask, nextShift, connections.Keys, old(nextId), steps)
      ensures nextId == Wrapped(old(nextId) + steps)
      ensures And(childMask, channelMask) == 0 ==> And(id, channelMask) == channelId && And(id, childMask) != 0
    {
      hide And, Within, Pow2, Candidate, Gap, Taken, Or, Wrapped;
      ghost var f := FreeSlot(channelId, nextShift, bits, connections.Keys);
      FirstTurn(channelId, nextShift, nextId, bits, f);
      nextId := Wrapped(nextId + 1);
      id := Candidate(channelId, nextMask, nextShift, nextId);
      steps := 1;
      NoneTaken(channelId, nextMask, nextShift, connections.Keys, old(nextId));
      while id == channelId || id in connections
        invariant nextId == Wrapped(old(nextId) + steps)
        invariant id == Candidate(channelId, nextMask, nextShift, nextId) == Candidate(channelId, nextMask, nextShift, old(nextId) + steps)
        invariant 0 < steps && steps + Gap(nextId, f, bits) <= nextMask + 1
        invariant Taken(channelId, nextMask, nextShift, connections.Keys, old(nextId), steps)
        decreases Gap(nextId, f, bits)
      {
        OneMoreTaken(channelId, nextMask, nextShift, connections.Keys, old(nextId), steps);
        Turn(channelId, nextShift, old(nextId) + steps, nextId, bits, f, connections.Keys);
        steps := steps + 1;
        nextId := Wrapped(nextId + 1);
        id := Candidate(channelId, nextMask, nextShift, nextId);
      }
      NotZero(channelId, nextShift, bits, nextId);
      if And(childMask, channelMask) == 0 {
        NothingElse(channelMask);
        NothingElse(childMask);
        IdOk(channelId, channelMask, childMask, nextShift, bits, nextId, 0);
      }
    }

    /** Registers under a given id, or under the next free one. */
    method RegisterChannel(connection: Connection, fixedId: nat, ghost bits: nat) returns (id: nat, ghost steps: nat)
      requires fixedId == 0 ==> Ready(bits)
      modifies this`connections, this`nextId
      ensures fixedId != 0 ==> steps == 0 && id == if fixedId in old(connections) then 0 else fixedId
      ensures fixedId == 0 && |old(connections)| >= nextMask - 1 ==> id == 0 && steps == 0
      ensures fixedId == 0 && |old(connections)| < nextMask - 1 ==>
                && id == Candidate(channelId, nextMask, nextShift, old(nextId) + steps) && 0 < steps <= nextMask + 1
                && id != channelId && id != 0 && id !in old(connections)
                && Taken(channelId, nextMask, nextShift, old(connections.Keys), old(nextId), steps)
      ensures connections == if id == 0 then old(connections) else old(connections)[id := connection]
      ensures nextId == if steps == 0 then old(nextId) else Wrapped(old(nextId) + steps)
      ensures fixedId == 0 && id != 0 && And(childMask, channelMask) == 0 ==>
                And(id, channelMask) == channelId && And(id, childMask) != 0
      ensures old(Ready(bits)) ==> Ready(bits)
    {
      hide And, Within, Pow2, Candidate, Taken;
      id, steps := fixedId, 0;
      if fixedId != 0 {
        if fixedId in connections {
          return 0, 0;
        }
      } else if |connections| >= nextMask - 1 {
        return 0, 0;
      } else {
        id, steps := NextFree(bits);
      }
      connections := connections[id := connection];
    }
  }

  function Candidate(base: nat, mask: nat, shift: nat, n: nat): nat {
    Or(base, And(n, mask) * Pow2(shift))
  }

  /** None of the first `steps - 1` candidates after `start` can be used. */
  ghost predicate Taken(base: nat, mask: nat, shift: nat, busy: set<nat>, start: nat, steps: nat) {
    forall m :: start < m < start + steps ==>
      Candidate(base, mask, shift, m) == base || Candidate(base, mask, shift, m) in busy
  }

  lemma NoneTaken(base: nat, mask: nat, shift: nat, busy: set<nat>, start: nat)
    ensures Taken(base, mask, shift, busy, start, 1)
  {
  }

  lemma OneMoreTaken(base: nat, mask: nat, shift: nat, busy: set<nat>, start: nat, steps: nat)
    requires steps > 0 && Taken(base, mask, shift, busy, start, steps)
    requires var id := Candidate(base, mask, shift, start + steps); id == base || id in busy
    ensures Taken(base, mask, shift, busy, start, steps + 1)
  {
  }

  /** Steps from slot `m` up to slot `f`, around the end. */
  function Distance(m: nat, f: nat, p: nat): nat
    requires m < p && f < p
  {
    if f >= m then f - m else f - m + p
  }

  lemma DistanceBound(m: nat, f: nat, p: nat)
    requires m < p && f < p
    ensures Distance(m, f, p) < p
  {
  }

  lemma Closer(m: nat, f: nat, p: nat)
    requires m < p && f < p && m != f
    ensures Distance(if m == p - 1 then 0 else m + 1, f, p) == Distance(m, f, p) - 1
  {
  }

  lemma ModStep(n: nat, p: nat)
    requires p > 0
    ensures (n + 1) % p == if n % p == p - 1 then 0 else n % p + 1
  {
    var q, r := n / p, n % p;
    assert n == p * q + r;
    if r == p - 1 {
      assert n + 1 == p * (q + 1) + 0;
      ModIs(n + 1, p, q + 1, 0);
    } else {
      ModIs(n + 1, p, q, r + 1);
    }
  }

  lemma {:induction false} Pow2Add(a: nat, b: nat)
    ensures Pow2(a + b) == Pow2(a) * Pow2(b)
  {
    if a > 0 {
      Pow2Add(a - 1, b);
    }
  }

  lemma Pow2Of32()
    ensures Pow2(32) == UINT32
  {
    assert Pow2(8) == 256;
    Pow2Add(8, 8);
    Pow2Add(16, 16);
  }

  /** The counter wraps at 32 bits, which no slot notices. */
  lemma WrapKeepsSlot(n: nat, bits: nat)
    requires bits <= 32
    ensures (n % UINT32) % Pow2(bits) == n % Pow2(bits)
  {
    Pow2Of32();
    Pow2Add(bits, 32 - bits);
    ModMod(n, Pow2(bits), Pow2(32 - bits));
  }

  lemma NotZero(base: nat, shift: nat, bits: nat, n: nat)
    requires And(base, (Pow2(bits) - 1) * Pow2(shift)) == 0 && Candidate(base, Pow2(bits) - 1, shift, n) != base
    ensures Candidate(base, Pow2(bits) - 1, shift, n) != 0
  {
    SlotIs(base, shift, bits, n);
    IdIsSum(base, bits, shift, n % Pow2(bits));
  }

  lemma SlotIs(base: nat, shift: nat, bits: nat, n: nat)
    ensures Candidate(base, Pow2(bits) - 1, shift, n) == Or(base, (n % Pow2(bits)) * Pow2(shift))
  {
    AndIsMod(n, bits);
  }

  lemma SameSlot(base: nat, shift: nat, bits: nat, n: nat)
    requires bits <= 32
    ensures Candidate(base, Pow2(bits) - 1, shift, n % UINT32) == Candidate(base, Pow2(bits) - 1, shift, n)
  {
    hide Pow2, Or, Candidate;
    SlotIs(base, shift, bits, n);
    SlotIs(base, shift, bits, n % UINT32);
    WrapKeepsSlot(n, bits);
  }

  /** The counter has 32 bits. */
  function Wrapped(n: nat): nat {
    n % UINT32
  }

  /** How many turns until the counter reaches slot `f`. */
  ghost function Gap(n: nat, f: nat, bits: nat): nat
    requires f < Pow2(bits)
  {
    Distance(n % Pow2(bits), f, Pow2(bits))
  }

  lemma Increment(base: nat, shift: nat, total: nat, n: nat, bits: nat)
    requires bits <= 32 && n == Wrapped(total)
    ensures var next := Wrapped(n + 1);
            && next == Wrapped(total + 1)
            && next % Pow2(bits) == (if n % Pow2(bits) == Pow2(bits) - 1 then 0 else n % Pow2(bits) + 1)
            && Candidate(base, Pow2(bits) - 1, shift, next) == Candidate(base, Pow2(bits) - 1, shift, total + 1)
  {
    hide Pow2, Or, Candidate;
    ModStep(total, UINT32);
    ModStep(n, UINT32);
    WrapKeepsSlot(n + 1, bits);
    ModStep(n, Pow2(bits));
    SameSlot(base, shift, bits, total + 1);
  }

  lemma FirstTurn(base: nat, shift: nat, n: nat, bits: nat, f: nat)
    requires bits <= 32 && n < UINT32 && f < Pow2(bits)
    ensures var next := Wrapped(n + 1);
            && Gap(next, f, bits) < Pow2(bits)
            && Candidate(base, Pow2(bits) - 1, shift, next) == Candidate(base, Pow2(bits) - 1, shift, n + 1)
  {
    hide Pow2, Or, Candidate, Distance;
    SmallMod(n, UINT32);
    Increment(base, shift, n, n, bits);
    DistanceBound(Wrapped(n + 1) % Pow2(bits), f, Pow2(bits));
  }

  /** One turn of the allocation loop, whose id cannot be used: the counter comes closer to the
      free slot. */
  lemma Turn(base: nat, shift: nat, total: nat, n: nat, bits: nat, f: nat, busy: set<nat>)
    requires bits <= 32 && n == Wrapped(total) && f < Pow2(bits)
    requires Or(base, f * Pow2(shift)) !in busy && Or(base, f * Pow2(shift)) != base
    requires var id := Candidate(base, Pow2(bits) - 1, shift, n); id == base || id in busy
    ensures var next := Wrapped(n + 1);
            && next == Wrapped(total + 1)
            && Gap(next, f, bits) == Gap(n, f, bits) - 1
            && Candidate(base, Pow2(bits) - 1, shift, next) == Candidate(base, Pow2(bits) - 1, shift, total + 1)
  {
    hide Pow2, Or, Candidate, Distance, Wrapped;
    SlotIs(base, shift, bits, n);
    Increment(base, shift, total, n, bits);
    Closer(n % Pow2(bits), f, Pow2(bits));
  }

  // ---- Ids ----

  lemma SlotWithin(f: nat, bits: nat, shift: nat)
    requires f < Pow2(bits)
    ensures Within(f * Pow2(shift), (Pow2(bits) - 1) * Pow2(shift))
  {
    SmallMod(f, Pow2(bits));
    ModWithin(f, bits);
    AndShifted(f, Pow2(bits) - 1, shift);
  }

  lemma IdIsSum(base: nat, bits: nat, shift: nat, f: nat)
    requires f < Pow2(bits) && And(base, (Pow2(bits) - 1) * Pow2(shift)) == 0
    ensures Or(base, f * Pow2(shift)) == base + f * Pow2(shift)
  {
    hide And, Or, Pow2;
    SlotWithin(f, bits, shift);
    AndCommutes(base, (Pow2(bits) - 1) * Pow2(shift));
    WithinDisjoint(f * Pow2(shift), (Pow2(bits) - 1) * Pow2(shift), base);
    AndCommutes(base, f * Pow2(shift));
    OrIsSum(base, f * Pow2(shift));
  }

  /** The ids of slots 1 to `k`. */
  ghost function Ids(base: nat, shift: nat, k: nat): set<nat> {
    if k == 0 then {} else Ids(base, shift, k - 1) + {base + k * Pow2(shift)}
  }

  lemma {:induction false} IdsAre(base: nat, shift: nat, k: nat)
    ensures |Ids(base, shift, k)| == k
    ensures forall i <- Ids(base, shift, k) :: i <= base + k * Pow2(shift)
    ensures forall i <- Ids(base, shift, k) :: exists f :: 0 < f <= k && i == base + f * Pow2(shift)
  {
    if k > 0 {
      IdsAre(base, shift, k - 1);
      assert k * Pow2(shift) == (k - 1) * Pow2(shift) + Pow2(shift);
      assert base + k * Pow2(shift) !in Ids(base, shift, k - 1);
    }
  }

  lemma Fits<T>(a: set<T>, b: set<T>)
    requires a <= b
    ensures |a| <= |b|
  {
    assert b == a + (b - a);
  }

  /** Below the capacity check there is a free slot. */
  lemma FreeSlot(base: nat, shift: nat, bits: nat, busy: set<nat>) returns (f: nat)
    requires bits > 0 && |busy| < Pow2(bits) - 2
    requires And(base, (Pow2(bits) - 1) * Pow2(shift)) == 0
    ensures 0 < f < Pow2(bits) && Or(base, f * Pow2(shift)) !in busy && Or(base, f * Pow2(shift)) != base
  {
    hide And, Or, Pow2, Ids;
    var all := Ids(base, shift, Pow2(bits) - 1);
    IdsAre(base, shift, Pow2(bits) - 1);
    if all <= busy {
      Fits(all, busy);
      assert false;
    }
    var id :| id in all && id !in busy;
    f :| 0 < f <= Pow2(bits) - 1 && id == base + f * Pow2(shift);
    IdIsSum(base, bits, shift, f);
    assert f * Pow2(shift) > 0;
  }

  lemma NothingElse(m: nat)
    ensures And(m, 0) == 0
  {
  }

  /** An id made by the allocator lies in the prefix of the handler and carries its slot in
      the child bits; every other bit is zero. */
  lemma IdOk(base: nat, mask: nat, child: nat, shift: nat, bits: nat, n: nat, other: nat)
    requires bits > 0 && child == (Pow2(bits) - 1) * Pow2(shift)
    requires Within(base, mask) && And(base, child) == 0 && And(child, mask) == 0
    requires And(mask, other) == 0 && And(child, other) == 0
    ensures var id := Candidate(base, Pow2(bits) - 1, shift, n);
            && And(id, mask) == base
            && And(id, child) == (n % Pow2(bits)) * Pow2(shift)
            && And(id, other) == 0
            && (id == base <==> And(id, child) == 0)
  {
    var v := (n % Pow2(bits)) * Pow2(shift);
    SlotIs(base, shift, bits, n);
    SlotWithin(n % Pow2(bits), bits, shift);
    IdIsSum(base, bits, shift, n % Pow2(bits));
    AndOr(base, v, mask);
    AndOr(base, v, child);
    AndOr(base, v, other);
    WithinDisjoint(v, child, mask);
    WithinDisjoint(v, child, other);
    WithinDisjoint(base, mask, other);
  }

  /** Both handlers are ready for allocation: their child masks are one run of bits, disjoint
      from their own mask, and what is left of 32 bits is the compartment. */
  lemma RootMasks()
    ensures (Pow2(7) - 1) * Pow2(24) == 0x7F00_0000 && And(0x7F00_0000, 0x8000_0000) == 0
    ensures And(0x8000_0000, 0x00FF_FFFF) == 0 && And(0x7F00_0000, 0x00FF_FFFF) == 0
  {
    hide And;
    SomePowers();
    MultipleDisjoint(0x80, 24);
    MultipleDisjoint(0x7F, 24);
    AndShifted(0x80, 0x7F, 24);
    AndIsMod(0x80, 7);
    AndCommutes(0x7F00_0000, 0x8000_0000);
  }

  lemma UserMasks()
    ensures (Pow2(12) - 1) * Pow2(12) == 0x00FF_F000 && And(0x00FF_F000, 0xFF00_0000) == 0
    ensures And(0xFF00_0000, 0xFFF) == 0 && And(0x00FF_F000, 0xFFF) == 0
  {
    hide And;
    SomePowers();
    MultipleDisjoint(0xF_F000, 12);
    MultipleDisjoint(0xFFF, 12);
    MultipleDisjoint(0xFF, 12);
    AndShifted(0xF_F000, 0xFFF, 12);
    AndCommutes(0x00FF_F000, 0xFF00_0000);
  }

  lemma SomePowers()
    ensures Pow2(7) == 0x80 && Pow2(12) == 0x1000 && Pow2(24) == 0x100_0000
  {
    assert Pow2(7) == 0x80;
    assert Pow2(12) == 0x1000;
    Pow2Add(12, 12);
  }

  lemma MultipleDisjoint(x: nat, s: nat)
    ensures And(x * Pow2(s), Pow2(s) - 1) == 0
  {
    AndIsMod(x * Pow2(s), s);
    ModIs(x * Pow2(s), Pow2(s), x, 0);
  }
}
