/**
 * The Gen 4 wild-encounter search (`WildGenerator4`): for every advance in
 * [0, maxAdvances] a copy `go` of the base generator `rng` replays the game's
 * draws (rate gate, slot, level, Cute Charm, nature, PID, IVs, item) and the
 * resulting state is kept when the filter accepts it.
 */
module Gen4Wild {
  import opened PokeRng
  import opened Encounters

  /** The search settings fixed at construction. */
  datatype WildGenerator4 = WildGenerator4(
    initialAdvances: u32,
    maxAdvances: u32,
    offset: u32,
    tsv: u16,
    pidMethod: Method,
    encounter: Encounter,
    lead: Lead,
    shiny: bool,
    filter: WildStateFilter4)

  /**
   * The outcome of one advance: the gate roll failed, or the filter rejected
   * the slot, the nature or the built state, or it accepted the state.
   */
  datatype Attempt =
    | Gated
    | SlotRejected(slot: nat)
    | NatureRejected(slot: nat, nature: Nature)
    | StateRejected(state: WildGeneratorState4)
    | Accepted(state: WildGeneratorState4)

  // ---------------------------------------------------------------------------
  // Held item
  // ---------------------------------------------------------------------------

  /** Cut-offs of the item roll: row 0 without Compound Eyes, row 1 with it. */
  const ItemTableRange: seq<seq<nat>> := [[45, 95], [20, 80]]

  /** `getItem`: the held item chosen by a 0..99 roll. */
  function GetItem(rand: nat, lead: Lead, info: PersonalInfo): (item: u16)
    ensures info.item0 == info.item1 && info.item0 != 0 ==> item == info.item0
    ensures !(info.item0 == info.item1 && info.item0 != 0) && lead != CompoundEyes ==>
              (rand < 45 ==> item == 0)
              && (45 <= rand < 95 ==> item == info.item0)
              && (95 <= rand ==> item == info.item1)
    ensures !(info.item0 == info.item1 && info.item0 != 0) && lead == CompoundEyes ==>
              (rand < 20 ==> item == 0)
              && (20 <= rand < 80 ==> item == info.item0)
              && (80 <= rand ==> item == info.item1)
  {
    var row := if lead == CompoundEyes then 1 else 0;
    if info.item0 == info.item1 && info.item0 != 0 then info.item0
    else if rand < ItemTableRange[row][0] then 0
    else if rand < ItemTableRange[row][1] then info.item0
    else info.item1
  }

  /** What `getItem` can hand out for some roll. */
  predicate ItemAllowed(item: u16, info: PersonalInfo) {
    (item == 0 || item == info.item0 || item == info.item1)
    && (info.item0 == info.item1 && info.item0 != 0 ==> item == info.item0)
  }

  lemma GetItemAllowed(rand: nat, lead: Lead, info: PersonalInfo)
    ensures ItemAllowed(GetItem(rand, lead, info), info)
  {
    var row := if lead == CompoundEyes then 1 else 0;
    assert ItemTableRange[row][0] <= ItemTableRange[row][1];
  }

  // ---------------------------------------------------------------------------
  // Cute Charm
  // ---------------------------------------------------------------------------

  /**
   * The PID offset `25 * ((gender / 25) + 1)` that a Cute Charm PID adds to
   * the nature, truncated to the u8 it is stored in.
   */
  function CharmBuffer(gender: u8): (buffer: u8)
    ensures gender < 250 ==> buffer > gender && buffer % 25 == 0
  {
    (25 * (gender / 25 + 1)) % 0x100
  }

  /** Below the u8 wrap-around, a Cute Charm PID keeps the nature: pid % 25 == nature. */
  lemma CharmBufferKeepsNature(gender: u8, nature: Nature)
    requires gender < 250
    ensures (CharmBuffer(gender) + nature) % 25 == nature
  {
    var k := gender / 25 + 1;
    assert k <= 10;
    assert CharmBuffer(gender) == 25 * k;
    assert 25 * k + nature == 25 * k + nature % 25;
  }

  /**
   * The radar's offset as written: `25 + ((gender / 25) + 1)`, a sum where
   * Methods J and K multiply.
   */
  function RadarBufferAsWritten(gender: u8): u8 {
    25 + (gender / 25 + 1)
  }

  /** With gender ratio 127 and nature 0 the as-written radar PID is 31: 31 % 25 == 6, not 0. */
  lemma RadarBufferAsWrittenLosesNature()
    ensures (RadarBufferAsWritten(127) + 0) % 25 == 6
  {
  }

  /** `cuteCharmCheck`: the PID's low byte against the gender ratio. */
  predicate CuteCharmCheck(lead: Lead, gender: u8, pid: u32) {
    if lead == CuteCharmF then pid % 0x100 >= gender else pid % 0x100 < gender
  }

  /** The two leads split the PIDs: the female lead's check passes exactly where the male lead's fails. */
  lemma CuteCharmChecksSplit(gender: u8, pid: u32)
    ensures CuteCharmCheck(CuteCharmF, gender, pid) <==> !CuteCharmCheck(CuteCharmM, gender, pid)
  {
  }

  // ---------------------------------------------------------------------------
  // PID draws
  // ---------------------------------------------------------------------------

  /** The PID built from two raw draws at seed s: `(high << 16) | low`. */
  function PidAt(s: u32): (pid: u32)
    ensures pid / 0x1_0000 == Draw(Step(s)) && pid % 0x1_0000 == Draw(s)
  {
    JoinHalves(Draw(Step(s)), Draw(s))
  }

  /** Some later pair of draws from s gives a PID of the requested nature. */
  ghost predicate PidReachable(s: u32, nature: Nature) {
    exists k: nat :: PidAt(Jump(s, 2 * k)) % 25 == nature
  }

  /**
   * The PID rejection loop ends from every seed and for every nature. The
   * source has no iteration cap; this is the hypothesis under which it ends.
   */
  ghost predicate PidSearchTerminates() {
    forall s: u32, nature: Nature :: PidReachable(s, nature)
  }

  /** A pair index at which the PID loop from s stops, under the termination hypothesis. */
  lemma PidWitness(s: u32, nature: Nature) returns (k: nat)
    requires PidSearchTerminates()
    ensures PidAt(Jump(s, 2 * k)) % 25 == nature
  {
    assert PidReachable(s, nature);
    k :| PidAt(Jump(s, 2 * k)) % 25 == nature;
  }

  /** One `low = nextUShort(); high = nextUShort(); pid = (high << 16) | low;` pair, the t-th from s0. */
  method DrawPair(go: PokeRNG, ghost s0: u32, ghost t: nat) returns (pid: u32)
    requires go.seed == Jump(s0, 2 * t)
    modifies go
    ensures pid == PidAt(Jump(s0, 2 * t))
    ensures go.seed == Jump(s0, 2 * t + 2)
  {
    ghost var x := go.seed;
    var low := go.NextUShort();
    var high := go.NextUShort();
    pid := high as int * 0x1_0000 + low;
    assert low == Draw(x) && high == Draw(Step(x));
    assert go.seed == Step(Jump(s0, 2 * t + 1));
  }

  /**
   * `pid` is pair t from p and the first pair with the nature: every earlier
   * pair was rejected.
   */
  predicate FirstPid(p: u32, nature: Nature, t: nat, pid: u32) {
    && pid == PidAt(Jump(p, 2 * t))
    && pid % 25 == nature
    && forall i :: 0 <= i < t ==> PidAt(Jump(p, 2 * i)) % 25 != nature
  }

  /** The PID loop's result is determined by its seed and nature. */
  lemma FirstPidUnique(p: u32, nature: Nature, t1: nat, pid1: u32, t2: nat, pid2: u32)
    requires FirstPid(p, nature, t1, pid1) && FirstPid(p, nature, t2, pid2)
    ensures t1 == t2 && pid1 == pid2
  {
  }

  /**
   * The `do { low; high } while (pid % 25 != nature)` loop, which ends because
   * pair k0 has the nature. `tries` counts the rejected pairs.
   */
  method DrawPid(go: PokeRNG, nature: Nature, ghost k0: nat) returns (pid: u32, ghost tries: nat)
    requires PidAt(Jump(go.seed, 2 * k0)) % 25 == nature
    modifies go
    ensures FirstPid(old(go.seed), nature, tries, pid)
    ensures tries <= k0
    ensures go.seed == Jump(old(go.seed), 2 * tries + 2)
  {
    ghost var s0 := go.seed;
    tries := 0;
    pid := DrawPair(go, s0, 0);
    while pid % 25 != nature
      invariant tries <= k0
      invariant pid == PidAt(Jump(s0, 2 * tries))
      invariant go.seed == Jump(s0, 2 * tries + 2)
      invariant forall j :: 0 <= j < tries ==> PidAt(Jump(s0, 2 * j)) % 25 != nature
      decreases k0 - tries
    {
      tries := tries + 1;
      pid := DrawPair(go, s0, tries);
    }
  }

  // ---------------------------------------------------------------------------
  // Shiny PID (Poké Radar)
  // ---------------------------------------------------------------------------

  /** 2^n. */
  function Pow2(n: nat): (p: nat)
    ensures p >= 1
  {
    if n == 0 then 1 else 2 * Pow2(n - 1)
  }

  /** Bitwise exclusive or (`^`) on naturals, one bit at a time from the bottom. */
  function Xor(a: nat, b: nat): nat
    decreases a + b
  {
    if a == 0 && b == 0 then 0 else 2 * Xor(a / 2, b / 2) + (a + b) % 2
  }

  lemma {:induction false} XorSelf(a: nat)
    ensures Xor(a, a) == 0
    decreases a
  {
    if a > 0 {
      XorSelf(a / 2);
    }
  }

  lemma {:induction false} XorZero(a: nat)
    ensures Xor(a, 0) == a
    decreases a
  {
    if a > 0 {
      XorZero(a / 2);
    }
  }

  /** `a ^ b` shifted right by one, and its bottom bit. */
  lemma XorHalves(a: nat, b: nat)
    ensures Xor(a, b) / 2 == Xor(a / 2, b / 2)
    ensures Xor(a, b) % 2 == (a + b) % 2
  {
    var x := Xor(a / 2, b / 2);
    assert Xor(a, b) == 2 * x + (a + b) % 2;
  }

  lemma SameParity(u: nat, v: nat, w: nat)
    requires u % 2 == v % 2
    ensures (u + w) % 2 == (v + w) % 2
  {
    assert u == 2 * (u / 2) + u % 2 && v == 2 * (v / 2) + v % 2;
  }

  lemma {:induction false} XorAssoc(a: nat, b: nat, c: nat)
    ensures Xor(Xor(a, b), c) == Xor(a, Xor(b, c))
    decreases a + b + c
  {
    if a + b + c > 0 {
      XorAssoc(a / 2, b / 2, c / 2);
      XorAssocHigh(a, b, c);
      XorAssocLow(a, b, c);
      SameHalves(Xor(Xor(a, b), c), Xor(a, Xor(b, c)));
    }
  }

  /** The bits above the bottom one: associativity one level down. */
  lemma XorAssocHigh(a: nat, b: nat, c: nat)
    requires Xor(Xor(a / 2, b / 2), c / 2) == Xor(a / 2, Xor(b / 2, c / 2))
    ensures Xor(Xor(a, b), c) / 2 == Xor(a, Xor(b, c)) / 2
  {
    XorHalves(Xor(a, b), c);
    XorHalves(a, b);
    XorHalves(b, c);
    XorHalves(a, Xor(b, c));
  }

  /** The bottom bit: both sides have the parity of a + b + c. */
  lemma XorAssocLow(a: nat, b: nat, c: nat)
    ensures Xor(Xor(a, b), c) % 2 == Xor(a, Xor(b, c)) % 2
  {
    XorHalves(Xor(a, b), c);
    XorHalves(a, b);
    XorHalves(b, c);
    XorHalves(a, Xor(b, c));
    ParityChain(a, b, c, Xor(a, b), Xor(b, c), Xor(Xor(a, b), c), Xor(a, Xor(b, c)));
  }

  /** x = (a+b)+c and y = a+(b+c) have the same parity when each sum is taken mod 2. */
  lemma ParityChain(a: nat, b: nat, c: nat, p: nat, q: nat, x: nat, y: nat)
    requires p % 2 == (a + b) % 2 && q % 2 == (b + c) % 2
    requires x % 2 == (p + c) % 2 && y % 2 == (a + q) % 2
    ensures x % 2 == y % 2
  {
    SameParity(p, a + b, c);
    SameParity(q, b + c, a);
  }

  /** Two naturals with the same half and the same bottom bit are equal. */
  lemma SameHalves(x: nat, y: nat)
    requires x / 2 == y / 2 && x % 2 == y % 2
    ensures x == y
  {
  }

  /** 2^16 is the range of a 16-bit half. */
  lemma Pow2Sixteen()
    ensures Pow2(16) == 0x1_0000
  {
    assert Pow2(8) == 0x100;
  }

  /** `(a ^ b) >> 3 == (a >> 3) ^ (b >> 3)`. */
  lemma Xor8(a: nat, b: nat)
    ensures Xor(a, b) / 8 == Xor(a / 8, b / 8)
  {
    XorHalves(a, b);
    XorHalves(a / 2, b / 2);
    XorHalves(a / 4, b / 4);
    assert a / 2 / 2 == a / 4 && b / 2 / 2 == b / 4;
    assert a / 4 / 2 == a / 8 && b / 4 / 2 == b / 8;
  }

  /** Exclusive or keeps values within n bits. */
  lemma {:induction false} XorBound(a: nat, b: nat, n: nat)
    requires a < Pow2(n) && b < Pow2(n)
    ensures Xor(a, b) < Pow2(n)
    decreases n
  {
    if n > 0 {
      XorBound(a / 2, b / 2, n - 1);
      assert Xor(a, b) == 2 * Xor(a / 2, b / 2) + (a + b) % 2;
    }
  }

  /**
   * The PID is shiny for this TSV: `(pid >> 16) ^ (pid & 0xffff) ^ tsv` has
   * nothing set above bit 2, i.e. `& 0xfff8 == 0`.
   */
  predicate IsShiny(pid: u32, tsv: u16) {
    Xor(Xor(pid / 0x1_0000, pid % 0x1_0000), tsv) < 8
  }

  /**
   * Bits i..15 of the low half of `shinyPID` drawn from seed s, shifted down
   * by i: bit b is the bottom bit of draw b (draws counted from 0).
   */
  function ShinyBitsFrom(s: u32, i: nat): nat
    requires 3 <= i <= 16
    decreases 16 - i
  {
    if i == 16 then 0 else Draw(Jump(s, i - 1)) % 2 + 2 * ShinyBitsFrom(s, i + 1)
  }

  lemma {:induction false} ShinyBitsBound(s: u32, i: nat)
    requires 3 <= i <= 16
    ensures ShinyBitsFrom(s, i) < Pow2(16 - i)
    decreases 16 - i
  {
    if i < 16 {
      ShinyBitsBound(s, i + 1);
      var bit, rest, p := Draw(Jump(s, i - 1)) % 2, ShinyBitsFrom(s, i + 1), Pow2(16 - (i + 1));
      assert ShinyBitsFrom(s, i) == bit + 2 * rest;
      assert Pow2(16 - i) == 2 * p;
    }
  }

  /** The low half of `shinyPID` from seed s: bits 0..2 from the first 8-bounded draw. */
  function ShinyLow(s: u32): (low: nat)
    ensures low < 0x1_0000
  {
    ShinyBitsBound(s, 3);
    assert Pow2(13) == 0x2000;
    ModBound(Draw(s), 8) + 8 * ShinyBitsFrom(s, 3)
  }

  /** `high |= (tsv ^ low) & 0xfff8` on a first high draw below 8. */
  function ShinyHigh(draw: nat, low: nat, tsv: u16): (high: nat)
    requires low < 0x1_0000 && draw < 8
    ensures high < 0x1_0000
    ensures Xor(Xor(high, low), tsv) < 8
  {
    Pow2Sixteen();
    XorBound(tsv, low, 16);
    ShinyByConstruction(draw, low, tsv);
    var q := Xor(tsv, low) / 8;
    assert q < 0x2000;
    draw + q * 8
  }

  /** `(high << 16) | low` on two 16-bit halves. */
  function JoinHalves(high: nat, low: nat): (pid: u32)
    requires high < 0x1_0000 && low < 0x1_0000
    ensures pid / 0x1_0000 == high && pid % 0x1_0000 == low
  {
    high * 0x1_0000 + low
  }

  /** The PID `shinyPID` returns from its low half and its first high draw. */
  function ShinyPidFrom(low: nat, draw: nat, tsv: u16): (pid: u32)
    requires low < 0x1_0000 && draw < 8
    ensures IsShiny(pid, tsv)
    ensures pid % 0x1_0000 == low
  {
    JoinHalves(ShinyHigh(draw, low, tsv), low)
  }

  /** Filling bits 3.. of the high half from `tsv ^ low` cancels them in the shiny test. */
  lemma ShinyByConstruction(d: nat, low: nat, tsv: nat)
    requires d < 8
    ensures Xor(Xor(d + Xor(tsv, low) / 8 * 8, low), tsv) < 8
  {
    var t, l := tsv / 8, low / 8;
    var high := d + Xor(tsv, low) / 8 * 8;
    assert high / 8 == Xor(tsv, low) / 8;
    Xor8(tsv, low);
    Xor8(high, low);
    Xor8(Xor(high, low), tsv);
    calc {
      Xor(Xor(high, low), tsv) / 8;
      Xor(Xor(high / 8, l), t);
      Xor(Xor(Xor(t, l), l), t);
      { XorAssoc(t, l, l); XorSelf(l); XorZero(t); }
      Xor(t, t);
      { XorSelf(t); }
      0;
    }
  }

  /** The PID `shinyPID` builds from seed s: fifteen draws, shiny by construction. */
  function ShinyPidAt(s: u32, tsv: u16): (pid: u32)
    ensures IsShiny(pid, tsv)
  {
    ShinyPidFrom(ShinyLow(s), ModBound(Draw(Step(s)), 8), tsv)
  }

  /** The `shinyPID` lambda: fifteen draws from `go`. */
  method ShinyPid(go: PokeRNG, tsv: u16) returns (pid: u32)
    modifies go
    ensures pid == ShinyPidAt(old(go.seed), tsv)
    ensures go.seed == Jump(old(go.seed), 15)
  {
    ghost var s0 := go.seed;
    var low := go.NextUShortMod(8);
    var high := go.NextUShortMod(8);
    low := ShinyLowBits(go, s0, low);
    pid := ShinyPidFrom(low, high, tsv);
  }

  /**
   * The `for (i = 3; i < 16; i++) low |= (nextUShort() & 1) << i` loop. Bit i
   * of `low` is still clear when it is set, so `|=` adds it.
   */
  method ShinyLowBits(go: PokeRNG, ghost s0: u32, low0: nat) returns (low: nat)
    requires go.seed == Jump(s0, 2) && low0 == ModBound(Draw(s0), 8)
    modifies go
    ensures low == ShinyLow(s0)
    ensures go.seed == Jump(s0, 15)
  {
    ghost var target := ShinyLow(s0);
    low := low0;
    var i := 3;
    assert Pow2(3) == 8;
    while i < 16
      invariant 3 <= i <= 16
      invariant go.seed == Jump(s0, i - 1)
      invariant low + Pow2(i) * ShinyBitsFrom(s0, i) == target
    {
      var bit := go.NextUShort();
      ShinyBitStep(s0, i, low, bit);
      if bit % 2 == 1 {
        low := low + Pow2(i);
      }
      i := i + 1;
    }
    assert ShinyBitsFrom(s0, i) == 0;
    NoBitsLeft(Pow2(i), ShinyBitsFrom(s0, i));
  }

  lemma NoBitsLeft(p: nat, r: nat)
    requires r == 0
    ensures p * r == 0
  {
  }

  lemma ShinyBitStep(s0: u32, i: nat, low: nat, bit: u16)
    requires 3 <= i < 16 && bit == Draw(Jump(s0, i - 1))
    ensures low + Pow2(i) * ShinyBitsFrom(s0, i)
         == (low + if bit % 2 == 1 then Pow2(i) else 0) + Pow2(i + 1) * ShinyBitsFrom(s0, i + 1)
  {
    assert ShinyBitsFrom(s0, i) == bit % 2 + 2 * ShinyBitsFrom(s0, i + 1);
    assert Pow2(i + 1) == 2 * Pow2(i);
    AddBit(low, Pow2(i), bit % 2, ShinyBitsFrom(s0, i + 1), Pow2(i + 1));
  }

  /** Moving bit b of the remaining bits (weight p) into the accumulated value. */
  lemma AddBit(low: int, p: int, b: int, r: int, p2: int)
    requires p2 == 2 * p && (b == 0 || b == 1)
    ensures low + p * (b + 2 * r) == (low + if b == 1 then p else 0) + p2 * r
  {
    assert p * (b + 2 * r) == p * b + p2 * r;
  }

  /** What a radar re-roll loop waits for. */
  datatype ShinyGoal = NatureIs(nature: Nature) | CharmAccepts(lead: Lead, gender: u8)

  predicate Meets(pid: u32, goal: ShinyGoal) {
    match goal
    case NatureIs(n) => pid % 25 == n
    case CharmAccepts(lead, gender) => CuteCharmCheck(lead, gender, pid)
  }

  /** One of the next k + 1 calls of `shinyPID`, the first starting at seed s, meets the goal. */
  ghost predicate MeetsWithin(s: u32, tsv: u16, goal: ShinyGoal, k: nat)
    decreases k
  {
    Meets(ShinyPidAt(s, tsv), goal) || (k > 0 && MeetsWithin(Jump(s, 15), tsv, goal, k - 1))
  }

  /** Some later call of `shinyPID` from seed s meets the goal. */
  ghost predicate ShinyReachable(s: u32, tsv: u16, goal: ShinyGoal) {
    exists k: nat :: MeetsWithin(s, tsv, goal, k)
  }

  /** A radar re-roll loop for this goal ends from every seed (the source has no cap). */
  ghost predicate ShinySearchTerminates(tsv: u16, goal: ShinyGoal) {
    forall s: u32 :: ShinyReachable(s, tsv, goal)
  }

  /** The hypotheses under which the shiny radar loops end, for this lead and species. */
  ghost predicate RadarSearchTerminates(g: WildGenerator4, gender: u8) {
    g.shiny ==>
      (g.lead.Synchronize? ==> ShinySearchTerminates(g.tsv, NatureIs(g.lead.nature)))
      && (IsCuteCharm(g.lead) && !FixedGender(gender) ==>
            ShinySearchTerminates(g.tsv, CharmAccepts(g.lead, gender)))
  }

  /** A number of re-rolls within which the loop from s stops, under the termination hypothesis. */
  lemma ShinyWitness(s: u32, tsv: u16, goal: ShinyGoal) returns (k: nat)
    requires ShinySearchTerminates(tsv, goal)
    ensures MeetsWithin(s, tsv, goal, k)
  {
    assert ShinyReachable(s, tsv, goal);
    k :| MeetsWithin(s, tsv, goal, k);
  }

  /**
   * `while (!goal) pid = shinyPID(tsv);`: re-roll shiny PIDs until the goal
   * holds; the loop ends because one of the next k0 + 1 re-rolls meets it.
   */
  method RerollShiny(go: PokeRNG, tsv: u16, goal: ShinyGoal, pid0: u32, ghost k0: nat) returns (pid: u32)
    requires MeetsWithin(go.seed, tsv, goal, k0)
    requires IsShiny(pid0, tsv)
    modifies go
    ensures Meets(pid, goal) && IsShiny(pid, tsv)
    ensures Meets(pid0, goal) ==> pid == pid0
  {
    pid := pid0;
    ghost var budget := k0;
    while !Meets(pid, goal)
      invariant IsShiny(pid, tsv)
      invariant !Meets(pid, goal) ==> MeetsWithin(go.seed, tsv, goal, budget)
      invariant Meets(pid0, goal) ==> pid == pid0
      decreases if Meets(pid, goal) then 0 else budget + 1
    {
      pid := ShinyPid(go, tsv);
      if !Meets(pid, goal) {
        budget := budget - 1;
      }
    }
  }


  // ---------------------------------------------------------------------------
  // Nature and the Bug Catching Contest rounds
  // ---------------------------------------------------------------------------

  /** One bounded draw of the form the calling method uses. */
  method BoundedDraw(go: PokeRNG, n: nat, modulo: bool) returns (r: nat)
    requires 0 < n <= 0xFFFF
    modifies go
    ensures r < n
    ensures go.seed == Step(old(go.seed)) && r == Bounded(Draw(old(go.seed)), n, modulo)
  {
    if modulo {
      r := go.NextUShortMod(n);
    } else {
      r := go.NextUShortDiv(n);
    }
  }

  /**
   * The nature drawn from seed s: a Synchronize lead passes its own nature on
   * a 1-in-2 roll of 0; otherwise the nature is a bounded draw of 25, taken
   * after that roll for a Synchronize lead.
   */
  function NatureAt(lead: Lead, s: u32, modulo: bool): Nature {
    if !lead.Synchronize? then Bounded(Draw(s), 25, modulo)
    else if Bounded(Draw(s), 2, modulo) == 0 then lead.nature
    else Bounded(Draw(Step(s)), 25, modulo)
  }

  /** The seed after the nature draws from s: two for a Synchronize lead whose roll is not 0, else one. */
  function NatureEnd(lead: Lead, s: u32, modulo: bool): u32 {
    if lead.Synchronize? && Bounded(Draw(s), 2, modulo) != 0 then Step(Step(s)) else Step(s)
  }

  /** The nature step on `go`. */
  method DrawNature(go: PokeRNG, lead: Lead, modulo: bool) returns (nature: Nature)
    modifies go
    ensures nature == NatureAt(lead, old(go.seed), modulo)
    ensures go.seed == NatureEnd(lead, old(go.seed), modulo)
  {
    if lead.Synchronize? {
      var roll := BoundedDraw(go, 2, modulo);
      if roll == 0 {
        nature := lead.nature;
        return;
      }
    }
    nature := BoundedDraw(go, 25, modulo);
  }

  /** The j-th 5-bit field of a packed IV word. */
  function IVField(iv: u16, j: nat): nat
    requires j < 3
  {
    iv / Pow2(5 * j) % 32
  }

  /** Some 5-bit field of either IV word is 31. */
  predicate HasMaxedIV(iv1: u16, iv2: u16) {
    exists j :: 0 <= j < 3 && (IVField(iv1, j) == 31 || IVField(iv2, j) == 31)
  }

  /** The `for j < 3` scan that sets `exit` in the contest loop. */
  method MaxedIVCheck(iv1: u16, iv2: u16) returns (exit: bool)
    ensures exit <==> HasMaxedIV(iv1, iv2)
  {
    exit := false;
    var j := 0;
    while j < 3
      invariant 0 <= j <= 3
      invariant forall k :: 0 <= k < j ==> IVField(iv1, k) != 31 && IVField(iv2, k) != 31
    {
      if IVField(iv1, j) == 31 {
        exit := true;
        break;
      }
      if IVField(iv2, j) == 31 {
        exit := true;
        break;
      }
      j := j + 1;
    }
  }

  /**
   * One contest round from seed s: the nature, the first PID pair with that
   * nature after t rejected pairs, then the two IV words `iv`; the next
   * round starts at `next`.
   */
  ghost predicate RoundFrom(lead: Lead, s: u32, t: nat, iv: (u16, u16), next: u32) {
    var p := NatureEnd(lead, s, true);
    && FirstPid(p, NatureAt(lead, s, true), t, PidAt(Jump(p, 2 * t)))
    && iv == (Draw(Jump(p, 2 * t + 2)), Draw(Jump(p, 2 * t + 3)))
    && next == Jump(p, 2 * t + 4)
  }

  /** One pass of the contest loop's body before the IV check. */
  method ContestRound(lead: Lead, go: PokeRNG) returns (nature: Nature, pid: u32, iv1: u16, iv2: u16, ghost t: nat)
    requires PidSearchTerminates()
    modifies go
    ensures RoundFrom(lead, old(go.seed), t, (iv1, iv2), go.seed)
    ensures nature == NatureAt(lead, old(go.seed), true)
    ensures pid == PidAt(Jump(NatureEnd(lead, old(go.seed), true), 2 * t))
  {
    nature := DrawNature(go, lead, true);
    ghost var p := go.seed;
    ghost var k0 := PidWitness(p, nature);
    pid, t := DrawPid(go, nature, k0);
    iv1, iv2 := DrawIVs(go, p, 2 * t + 2);
    RoundFromIntro(lead, old(go.seed), p, nature, t, pid, iv1, iv2, go.seed);
  }

  /** The two IV words, drawn at step n from p. */
  method DrawIVs(go: PokeRNG, ghost p: u32, ghost n: nat) returns (iv1: u16, iv2: u16)
    requires go.seed == Jump(p, n)
    modifies go
    ensures iv1 == Draw(Jump(p, n)) && iv2 == Draw(Jump(p, n + 1)) && go.seed == Jump(p, n + 2)
  {
    iv1 := go.NextUShort();
    iv2 := go.NextUShort();
  }

  lemma RoundFromIntro(lead: Lead, s: u32, p: u32, nature: Nature, t: nat, pid: u32, iv1: u16, iv2: u16, next: u32)
    requires p == NatureEnd(lead, s, true) && nature == NatureAt(lead, s, true)
    requires FirstPid(p, nature, t, pid)
    requires iv1 == Draw(Jump(p, 2 * t + 2)) && iv2 == Draw(Jump(p, 2 * t + 3)) && next == Jump(p, 2 * t + 4)
    ensures RoundFrom(lead, s, t, (iv1, iv2), next)
    ensures pid == PidAt(Jump(p, 2 * t))
  {
  }

  /**
   * The rounds of the contest loop from seed s: round j starts at starts[j],
   * rejects tries[j] PID pairs and draws the IV words ivs[j]; every round but
   * the last has no maxed IV, and fewer than four rounds end on a maxed IV.
   */
  ghost predicate ContestRun(lead: Lead, s: u32, starts: seq<u32>, tries: seq<nat>, ivs: seq<(u16, u16)>) {
    && 1 <= |ivs| <= 4 && |starts| == |ivs| + 1 && |tries| == |ivs|
    && starts[0] == s
    && (forall j :: 0 <= j < |ivs| ==> RoundFrom(lead, starts[j], tries[j], ivs[j], starts[j + 1]))
    && (forall j :: 0 <= j < |ivs| - 1 ==> !HasMaxedIV(ivs[j].0, ivs[j].1))
    && (|ivs| < 4 ==> HasMaxedIV(ivs[|ivs| - 1].0, ivs[|ivs| - 1].1))
  }

  /**
   * The Bug Catching Contest loop of Method K: nature, PID and IVs are drawn
   * anew up to four times, stopping after the first round with a maxed IV;
   * the result is the last round's.
   */
  method ContestRounds(lead: Lead, go: PokeRNG)
    returns (nature: Nature, pid: u32, iv1: u16, iv2: u16,
             ghost starts: seq<u32>, ghost tries: seq<nat>, ghost ivs: seq<(u16, u16)>)
    requires PidSearchTerminates()
    modifies go
    ensures ContestRun(lead, old(go.seed), starts, tries, ivs)
    ensures go.seed == starts[|ivs|]
    ensures (iv1, iv2) == ivs[|ivs| - 1]
    ensures nature == NatureAt(lead, starts[|ivs| - 1], true)
    ensures pid == PidAt(Jump(NatureEnd(lead, starts[|ivs| - 1], true), 2 * tries[|ivs| - 1]))
  {
    nature, pid, iv1, iv2 := 0, 0, 0, 0;
    starts, tries, ivs := [go.seed], [], [];
    var i := 0;
    while i < 4
      invariant i <= 4 && |ivs| == i && |tries| == i && |starts| == i + 1
      invariant starts[0] == old(go.seed) && go.seed == starts[i]
      invariant forall j :: 0 <= j < i ==> RoundFrom(lead, starts[j], tries[j], ivs[j], starts[j + 1])
      invariant forall j :: 0 <= j < i ==> !HasMaxedIV(ivs[j].0, ivs[j].1)
      invariant i > 0 ==> (iv1, iv2) == ivs[i - 1] && nature == NatureAt(lead, starts[i - 1], true)
      invariant i > 0 ==> pid == PidAt(Jump(NatureEnd(lead, starts[i - 1], true), 2 * tries[i - 1]))
    {
      ghost var t;
      nature, pid, iv1, iv2, t := ContestRound(lead, go);
      starts, tries, ivs := starts + [go.seed], tries + [t], ivs + [(iv1, iv2)];
      var exit := MaxedIVCheck(iv1, iv2);
      if exit {
        break;
      }
      i := i + 1;
    }
  }

  /**
   * The nature, PID, IVs and item of a contest state are those of the last
   * round run from seed s, the item roll following that round.
   */
  ghost predicate ContestEnds(lead: Lead, info: PersonalInfo, s: u32, starts: seq<u32>, tries: seq<nat>,
                              ivs: seq<(u16, u16)>, st: WildGeneratorState4) {
    && ContestRun(lead, s, starts, tries, ivs)
    && (st.iv1, st.iv2) == ivs[|ivs| - 1]
    && st.nature == NatureAt(lead, starts[|ivs| - 1], true)
    && st.pid == PidAt(Jump(NatureEnd(lead, starts[|ivs| - 1], true), 2 * tries[|ivs| - 1]))
    && st.item == GetItem(ModBound(Draw(starts[|ivs|]), 100), lead, info)
  }

  ghost predicate ContestGives(lead: Lead, info: PersonalInfo, s: u32, st: WildGeneratorState4) {
    exists starts: seq<u32>, tries: seq<nat>, ivs: seq<(u16, u16)> :: ContestEnds(lead, info, s, starts, tries, ivs, st)
  }

  /** A contest state's PID has its nature and its item is one `getItem` can give. */
  lemma ContestKeepsNature(lead: Lead, info: PersonalInfo, s: u32, st: WildGeneratorState4)
    requires ContestGives(lead, info, s, st)
    ensures st.pid % 25 == st.nature
    ensures ItemAllowed(st.item, info)
  {
    var starts, tries, ivs :| ContestEnds(lead, info, s, starts, tries, ivs, st);
    var j := |ivs| - 1;
    assert RoundFrom(lead, starts[j], tries[j], ivs[j], starts[j + 1]);
    GetItemAllowed(ModBound(Draw(starts[|ivs|]), 100), lead, info);
  }

  // ---------------------------------------------------------------------------
  // Draws shared by Method J, Method K and the Poké Radar
  // ---------------------------------------------------------------------------

  /** The Cute Charm roll is made: a Cute Charm lead and a species of either gender. */
  predicate CharmActive(lead: Lead, gender: u8) {
    IsCuteCharm(lead) && !FixedGender(gender)
  }

  /** The Cute Charm roll drawn from r0 succeeds: a nonzero 1-in-3 roll. */
  predicate CharmFlag(lead: Lead, gender: u8, r0: u32, modulo: bool) {
    CharmActive(lead, gender) && Bounded(Draw(r0), 3, modulo) != 0
  }

  /** The PID offset of Methods J and K: a male lead's offset past the female-only PID band. */
  function CharmOffset(lead: Lead, gender: u8): u8 {
    if lead == CuteCharmM && !FixedGender(gender) then CharmBuffer(gender) else 0
  }

  /** The seed after the Cute Charm roll, when one is made. */
  function AfterCharm(lead: Lead, gender: u8, r0: u32): u32 {
    if CharmActive(lead, gender) then Step(r0) else r0
  }

  /**
   * The nature, PID, IVs and item drawn from `go` at seed s: the nature, then
   * on the Cute Charm path `offset + nature` and no PID words, otherwise the
   * first PID pair with the nature after t rejected pairs; then the two IV
   * words and the 0..99 item roll.
   */
  ghost predicate DrawnFrom(lead: Lead, info: PersonalInfo, s: u32, modulo: bool, charm: bool, offset: u8, t: nat,
                            st: WildGeneratorState4) {
    var p := NatureEnd(lead, s, modulo);
    var q := if charm then p else Jump(p, 2 * t + 2);
    && st.nature == NatureAt(lead, s, modulo)
    && (if charm then st.pid == offset + st.nature else FirstPid(p, st.nature, t, st.pid))
    && st.iv1 == Draw(q) && st.iv2 == Draw(Step(q))
    && st.item == GetItem(ModBound(Draw(Step(Step(q))), 100), lead, info)
  }

  /** The nature step, its filter check and, off the Cute Charm path, the PID loop. */
  method NatureThenPid(g: WildGenerator4, go: PokeRNG, modulo: bool, cuteCharmFlag: bool, buffer: u8)
    returns (accepted: bool, nature: Nature, pid: u32, ghost t: nat)
    requires PidSearchTerminates()
    modifies go
    ensures nature == NatureAt(g.lead, old(go.seed), modulo)
    ensures accepted == g.filter.compareNature(nature)
    ensures accepted && cuteCharmFlag ==>
              pid == buffer + nature && go.seed == NatureEnd(g.lead, old(go.seed), modulo)
    ensures accepted && !cuteCharmFlag ==>
              FirstPid(NatureEnd(g.lead, old(go.seed), modulo), nature, t, pid)
              && go.seed == Jump(NatureEnd(g.lead, old(go.seed), modulo), 2 * t + 2)
  {
    nature := DrawNature(go, g.lead, modulo);
    pid, t := 0, 0;
    accepted := g.filter.compareNature(nature);
    if !accepted {
      return;
    }
    if cuteCharmFlag {
      pid := buffer + nature;
    } else {
      ghost var k0 := PidWitness(go.seed, nature);
      pid, t := DrawPid(go, nature, k0);
    }
  }

  /**
   * The tail of every advance: the item roll on `go`, then the state's seed
   * from one draw of the base generator, and the filter's verdict on the state.
   */
  method ItemAndEmit(g: WildGenerator4, area: EncounterArea4, rng: PokeRNG, go: PokeRNG, advance: u32,
                     encounterSlot: nat, level: u8, nature: Nature, pid: u32, iv1: u16, iv2: u16)
    returns (a: Attempt)
    requires encounterSlot < |area.pokemon|
    requires rng != go
    modifies rng, go
    ensures rng.seed == Step(old(rng.seed)) && go.seed == Step(old(go.seed))
    ensures a.StateRejected? || a.Accepted?
    ensures var slot := area.pokemon[encounterSlot];
            a.state == WildGeneratorState4(Draw(old(rng.seed)), advance, pid, nature, iv1, iv2, g.tsv, level, encounterSlot,
                                           GetItem(ModBound(Draw(old(go.seed)), 100), g.lead, slot.info),
                                           slot.specie, slot.info)
    ensures a.Accepted? <==> g.filter.compareState(a.state)
  {
    var slot := area.pokemon[encounterSlot];
    var roll := go.NextUShortMod(100);
    var item := GetItem(roll, g.lead, slot.info);
    var seedOut := rng.NextUShort();
    var state := WildGeneratorState4(seedOut, advance, pid, nature, iv1, iv2, g.tsv, level,
                                     encounterSlot, item, slot.specie, slot.info);
    a := if g.filter.compareState(state) then Accepted(state) else StateRejected(state);
  }

  // ---------------------------------------------------------------------------
  // One advance of Method J and Method K
  // ---------------------------------------------------------------------------

  /** The encounters whose advances start with the rate gate: fishing, and in Method K Rock Smash. */
  predicate HasGate(encounter: Encounter, methodK: bool) {
    IsRod(encounter) || (methodK && encounter == RockSmash)
  }

  /** `generateMethodK`'s gate rate: doubled for Suction Cups when fishing and Arena Trap on Rock Smash. */
  function EncounterRateK(rate: u8, lead: Lead, encounter: Encounter): (r: u16)
    ensures (lead == SuctionCups && IsRod(encounter)) || (lead == ArenaTrap && encounter == RockSmash) ==> r == 2 * rate
    ensures !((lead == SuctionCups && IsRod(encounter)) || (lead == ArenaTrap && encounter == RockSmash)) ==> r == rate
  {
    if lead == SuctionCups && IsRod(encounter) then rate * 2
    else if lead == ArenaTrap && encounter == RockSmash then rate * 2
    else rate
  }

  /** The gate roll drawn from s0 fails: a 0..99 roll at or above the rate. */
  predicate GateFails(g: WildGenerator4, area: EncounterArea4, s0: u32, methodK: bool) {
    && HasGate(g.encounter, methodK)
    && if methodK then ModBound(Draw(s0), 100) >= EncounterRateK(area.rate, g.lead, g.encounter)
       else DivBound(Draw(s0), 100) >= area.rate
  }

  /** Where the slot draws start: after the gate roll, when there is one. */
  function SlotStart(g: WildGenerator4, s0: u32, methodK: bool): u32 {
    if HasGate(g.encounter, methodK) then Step(s0) else s0
  }

  /** Whether Magnet Pull / Static narrows the slot: a nonzero 1-in-2 roll and a non-empty subset. */
  predicate Narrows(lead: Lead, modifiedSlots: seq<nat>, s: u32, modulo: bool) {
    (lead == MagnetPull || lead == Static) && Bounded(Draw(s), 2, modulo) != 0 && |modifiedSlots| > 0
  }

  /** Where the slot itself is drawn: after the narrowing roll, for the leads that make one. */
  function SlotSeed(lead: Lead, s: u32): u32 {
    if lead == MagnetPull || lead == Static then Step(s) else s
  }

  /**
   * The slot drawn from seed s: an entry of the narrowed subset by a modulo
   * draw of its size, else `kSlot` (Method K, modulo) or `jSlot` (Method J,
   * division) of a 0..99 roll.
   */
  function SlotAt(g: WildGenerator4, area: EncounterArea4, modifiedSlots: seq<nat>, s: u32, methodK: bool): (slot: nat)
    requires area.Valid() && modifiedSlots == area.GetSlots(g.lead)
    ensures slot < |area.pokemon|
    ensures Narrows(g.lead, modifiedSlots, s, methodK) ==> slot in modifiedSlots
  {
    var t := SlotSeed(g.lead, s);
    if Narrows(g.lead, modifiedSlots, s, methodK) then modifiedSlots[ModBound(Draw(t), |modifiedSlots|)]
    else if methodK then area.kSlot(ModBound(Draw(t), 100), g.encounter)
    else area.jSlot(DivBound(Draw(t), 100), g.encounter)
  }

  /** The slot draws on `go`. */
  method DrawSlot(g: WildGenerator4, area: EncounterArea4, modifiedSlots: seq<nat>, go: PokeRNG, methodK: bool)
    returns (encounterSlot: nat)
    requires area.Valid() && modifiedSlots == area.GetSlots(g.lead)
    modifies go
    ensures encounterSlot == SlotAt(g, area, modifiedSlots, old(go.seed), methodK)
    ensures go.seed == Step(SlotSeed(g.lead, old(go.seed)))
  {
    var narrowed := false;
    if g.lead == MagnetPull || g.lead == Static {
      var roll := BoundedDraw(go, 2, methodK);
      narrowed := roll != 0 && |modifiedSlots| > 0;
    }
    if narrowed {
      var k := go.NextUShortMod(|modifiedSlots|);
      encounterSlot := modifiedSlots[k];
    } else if methodK {
      var roll := go.NextUShortMod(100);
      encounterSlot := area.kSlot(roll, g.encounter);
    } else {
      var roll := go.NextUShortDiv(100);
      encounterSlot := area.jSlot(roll, g.encounter);
    }
  }

  /** Where the level draw starts, after the slot draws. */
  function LevelStart(g: WildGenerator4, s0: u32, methodK: bool): u32 {
    Step(SlotSeed(g.lead, SlotStart(g, s0, methodK)))
  }

  /** Where the nature draws start, after the level draw (none on grass). */
  function NatureStart(g: WildGenerator4, s0: u32, methodK: bool): u32 {
    if g.encounter != Grass then Step(LevelStart(g, s0, methodK)) else LevelStart(g, s0, methodK)
  }

  /** The Cute Charm roll on the base generator, with the male lead's PID offset. */
  method CharmRoll(g: WildGenerator4, info: PersonalInfo, rng: PokeRNG, modulo: bool)
    returns (cuteCharmFlag: bool, buffer: u8)
    modifies rng
    ensures rng.seed == AfterCharm(g.lead, info.gender, old(rng.seed))
    ensures cuteCharmFlag == CharmFlag(g.lead, info.gender, old(rng.seed), modulo)
    ensures buffer == CharmOffset(g.lead, info.gender)
  {
    cuteCharmFlag, buffer := false, 0;
    if IsCuteCharm(g.lead) && !FixedGender(info.gender) {
      var roll := BoundedDraw(rng, 3, modulo);
      cuteCharmFlag := roll != 0;
      if g.lead == CuteCharmM {
        buffer := CharmBuffer(info.gender);
      }
    }
  }

  /**
   * What a Method J / K state satisfies before the state filter: its slot,
   * species and level come from the area, the filter accepted its slot and
   * nature, its item is one `getItem` can give, and its PID has its nature
   * (outside the u8 wrap-around of a male Cute Charm offset).
   */
  ghost predicate JKCandidate(g: WildGenerator4, area: EncounterArea4, st: WildGeneratorState4) {
    && st.encounterSlot < |area.pokemon|
    && st.specie == area.pokemon[st.encounterSlot].specie
    && st.info == area.pokemon[st.encounterSlot].info
    && area.pokemon[st.encounterSlot].minLevel <= st.level <= area.pokemon[st.encounterSlot].maxLevel
    && st.tsv == g.tsv
    && g.filter.compareEncounterSlot(st.encounterSlot)
    && g.filter.compareNature(st.nature)
    && ItemAllowed(st.item, st.info)
    && ((g.lead != CuteCharmM || st.info.gender < 250) ==> st.pid % 25 == st.nature)
  }

  /** What every Method J / K state in the result list satisfies. */
  ghost predicate MethodJKState(g: WildGenerator4, area: EncounterArea4, st: WildGeneratorState4) {
    JKCandidate(g, area, st) && g.filter.compareState(st)
  }

  /** The Bug Catching Contest rounds replace the nature and PID draws (Method K, off the Cute Charm path). */
  predicate ContestPath(g: WildGenerator4, gender: u8, r0: u32, methodK: bool) {
    methodK && g.encounter == BugCatchingContest && !CharmFlag(g.lead, gender, r0, true)
  }

  /** The nature, PID, IVs and item of a J / K state as drawn from `go` at seed s. */
  ghost predicate DrawnJK(g: WildGenerator4, info: PersonalInfo, s: u32, r0: u32, methodK: bool, st: WildGeneratorState4) {
    if ContestPath(g, info.gender, r0, methodK) then ContestGives(g.lead, info, s, st)
    else exists t: nat :: DrawnFrom(g.lead, info, s, methodK, CharmFlag(g.lead, info.gender, r0, methodK),
                                    CharmOffset(g.lead, info.gender), t, st)
  }

  /**
   * The state a J / K advance from base seed r0 builds once the slot and
   * level are known: `go` is at s when the nature draws start.
   */
  ghost predicate BuiltJK(g: WildGenerator4, area: EncounterArea4, r0: u32, s: u32, advance: u32, methodK: bool,
                          slot: nat, level: u8, st: WildGeneratorState4) {
    && slot < |area.pokemon|
    && st.encounterSlot == slot && st.level == level && st.advances == advance
    && st.seed == Draw(AfterCharm(g.lead, area.pokemon[slot].info.gender, r0))
    && JKCandidate(g, area, st)
    && DrawnJK(g, area.pokemon[slot].info, s, r0, methodK, st)
  }

  /** The contest rounds from seed s run as the loop runs them, and the last round's nature is `nature`. */
  ghost predicate ContestNature(lead: Lead, s: u32, nature: Nature) {
    exists starts: seq<u32>, tries: seq<nat>, ivs: seq<(u16, u16)> ::
      ContestRun(lead, s, starts, tries, ivs) && nature == NatureAt(lead, starts[|ivs| - 1], true)
  }

  /** The nature a J / K advance rejects is the drawn one: the last contest round's on the contest path. */
  ghost predicate NatureDrawnJK(g: WildGenerator4, gender: u8, s: u32, r0: u32, methodK: bool, nature: Nature) {
    if ContestPath(g, gender, r0, methodK) then ContestNature(g.lead, s, nature)
    else nature == NatureAt(g.lead, s, methodK)
  }

  /**
   * Every outcome of a J / K advance from base seed s0 is accounted for by
   * the draws: the gate failed, or the filter rejected the drawn slot, the
   * drawn nature or the built state, or it accepted the built state.
   */
  ghost predicate JustifiedJK(g: WildGenerator4, area: EncounterArea4, s0: u32, advance: u32, methodK: bool, a: Attempt) {
    && area.Valid()
    && var slot := SlotAt(g, area, area.GetSlots(g.lead), SlotStart(g, s0, methodK), methodK);
       var level := LevelAt(area.pokemon[slot], LevelStart(g, s0, methodK), g.encounter != Grass, methodK);
       var s := NatureStart(g, s0, methodK);
       match a
       case Gated => GateFails(g, area, s0, methodK)
       case SlotRejected(sl) => !GateFails(g, area, s0, methodK) && sl == slot && !g.filter.compareEncounterSlot(sl)
       case NatureRejected(sl, n) =>
         && !GateFails(g, area, s0, methodK) && sl == slot
         && g.filter.compareEncounterSlot(sl) && !g.filter.compareNature(n)
         && NatureDrawnJK(g, area.pokemon[slot].info.gender, s, s0, methodK, n)
       case StateRejected(st) =>
         !GateFails(g, area, s0, methodK) && BuiltJK(g, area, s0, s, advance, methodK, slot, level, st)
         && !g.filter.compareState(st)
       case Accepted(st) =>
         !GateFails(g, area, s0, methodK) && BuiltJK(g, area, s0, s, advance, methodK, slot, level, st)
         && g.filter.compareState(st)
  }

  /**
   * The base generator's steps in one advance from s0: one, plus one for the
   * Cute Charm roll when the advance reached it and the slot's species has
   * either gender.
   */
  ghost predicate BaseStepped(g: WildGenerator4, area: EncounterArea4, a: Attempt, s0: u32, s1: u32) {
    match a
    case Gated => s1 == Step(s0)
    case SlotRejected(_) => s1 == Step(s0)
    case NatureRejected(slot, _) =>
      slot < |area.pokemon| && s1 == Step(AfterCharm(g.lead, area.pokemon[slot].info.gender, s0))
    case StateRejected(st) => s1 == Step(AfterCharm(g.lead, st.info.gender, s0))
    case Accepted(st) => s1 == Step(AfterCharm(g.lead, st.info.gender, s0))
  }

  /**
   * A state drawn off the contest path has an item `getItem` can give, and
   * its PID has its nature unless a male Cute Charm offset wrapped around.
   */
  lemma DrawnFromKeepsNature(lead: Lead, info: PersonalInfo, s: u32, modulo: bool, charm: bool, t: nat,
                             st: WildGeneratorState4)
    requires DrawnFrom(lead, info, s, modulo, charm, CharmOffset(lead, info.gender), t, st)
    ensures ItemAllowed(st.item, info)
    ensures (lead != CuteCharmM || info.gender < 250) ==> st.pid % 25 == st.nature
  {
    var p := NatureEnd(lead, s, modulo);
    var q := if charm then p else Jump(p, 2 * t + 2);
    GetItemAllowed(ModBound(Draw(Step(Step(q))), 100), lead, info);
    if charm && lead == CuteCharmM && info.gender < 250 {
      CharmBufferKeepsNature(info.gender, st.nature);
    }
  }

  /** The facts `JKCandidate` takes from the draws, on either path. */
  lemma DrawnKeepsNature(g: WildGenerator4, info: PersonalInfo, s: u32, r0: u32, methodK: bool, st: WildGeneratorState4)
    requires DrawnJK(g, info, s, r0, methodK, st)
    ensures ItemAllowed(st.item, info)
    ensures (g.lead != CuteCharmM || info.gender < 250) ==> st.pid % 25 == st.nature
  {
    if ContestPath(g, info.gender, r0, methodK) {
      ContestKeepsNature(g.lead, info, s, st);
    } else {
      var flag := CharmFlag(g.lead, info.gender, r0, methodK);
      var t :| DrawnFrom(g.lead, info, s, methodK, flag, CharmOffset(g.lead, info.gender), t, st);
      DrawnFromKeepsNature(g.lead, info, s, methodK, flag, t, st);
    }
  }

  /**
   * Method J after the level draw: Cute Charm roll on the base generator,
   * nature (with its filter check), PID, IVs and item on `go`.
   */
  method FinishJ(g: WildGenerator4, area: EncounterArea4, rng: PokeRNG, go: PokeRNG, advance: u32,
                 encounterSlot: nat, level: u8)
    returns (a: Attempt)
    requires PidSearchTerminates() && rng != go
    requires encounterSlot < |area.pokemon| && g.filter.compareEncounterSlot(encounterSlot)
    requires area.pokemon[encounterSlot].minLevel <= level <= area.pokemon[encounterSlot].maxLevel
    modifies rng, go
    ensures rng.seed == Step(AfterCharm(g.lead, area.pokemon[encounterSlot].info.gender, old(rng.seed)))
    ensures a.NatureRejected? || a.StateRejected? || a.Accepted?
    ensures a.NatureRejected? ==>
              a.slot == encounterSlot && !g.filter.compareNature(a.nature)
              && a.nature == NatureAt(g.lead, old(go.seed), false)
    ensures !a.NatureRejected? ==>
              BuiltJK(g, area, old(rng.seed), old(go.seed), advance, false, encounterSlot, level, a.state)
              && (a.Accepted? <==> g.filter.compareState(a.state))
  {
    var info := area.pokemon[encounterSlot].info;
    var cuteCharmFlag, buffer := CharmRoll(g, info, rng, false);
    var accepted, nature, pid, t := NatureThenPid(g, go, false, cuteCharmFlag, buffer);
    if !accepted {
      var _ := rng.Next();
      return NatureRejected(encounterSlot, nature);
    }
    var iv1 := go.NextUShort();
    var iv2 := go.NextUShort();
    a := ItemAndEmit(g, area, rng, go, advance, encounterSlot, level, nature, pid, iv1, iv2);
    assert DrawnFrom(g.lead, info, old(go.seed), false, cuteCharmFlag, buffer, t, a.state);
    DrawnKeepsNature(g, info, old(go.seed), old(rng.seed), false, a.state);
  }

  /** One iteration of `generateMethodJ`'s loop. */
  method AdvanceJ(g: WildGenerator4, area: EncounterArea4, modifiedSlots: seq<nat>, rng: PokeRNG, advance: u32)
    returns (a: Attempt)
    requires area.Valid() && PidSearchTerminates()
    requires modifiedSlots == area.GetSlots(g.lead)
    modifies rng
    ensures JustifiedJK(g, area, old(rng.seed), advance, false, a)
    ensures BaseStepped(g, area, a, old(rng.seed), rng.seed)
  {
    var go := new PokeRNG(rng.seed, 0);
    if IsRod(g.encounter) {
      var roll := go.NextUShortDiv(100);
      if roll >= area.rate {
        var _ := rng.Next();
        return Gated;
      }
    }
    var encounterSlot := DrawSlot(g, area, modifiedSlots, go, false);
    if !g.filter.compareEncounterSlot(encounterSlot) {
      var _ := rng.Next();
      return SlotRejected(encounterSlot);
    }
    var level := CalculateLevel(area, encounterSlot, go, g.encounter != Grass, false, g.lead == Pressure);
    a := FinishJ(g, area, rng, go, advance, encounterSlot, level);
  }

  /**
   * Method K after the level draw. On the Cute Charm path the nature is a
   * plain roll of 25 and no PID words are drawn; in the Bug Catching Contest
   * the contest rounds run and the nature filter sees the last round's nature.
   */
  method FinishK(g: WildGenerator4, area: EncounterArea4, rng: PokeRNG, go: PokeRNG, advance: u32,
                 encounterSlot: nat, level: u8)
    returns (a: Attempt)
    requires PidSearchTerminates() && rng != go
    requires encounterSlot < |area.pokemon| && g.filter.compareEncounterSlot(encounterSlot)
    requires area.pokemon[encounterSlot].minLevel <= level <= area.pokemon[encounterSlot].maxLevel
    modifies rng, go
    ensures rng.seed == Step(AfterCharm(g.lead, area.pokemon[encounterSlot].info.gender, old(rng.seed)))
    ensures a.NatureRejected? || a.StateRejected? || a.Accepted?
    ensures a.NatureRejected? ==>
              a.slot == encounterSlot && !g.filter.compareNature(a.nature)
              && NatureDrawnJK(g, area.pokemon[encounterSlot].info.gender, old(go.seed), old(rng.seed), true, a.nature)
    ensures !a.NatureRejected? ==>
              BuiltJK(g, area, old(rng.seed), old(go.seed), advance, true, encounterSlot, level, a.state)
              && (a.Accepted? <==> g.filter.compareState(a.state))
  {
    var info := area.pokemon[encounterSlot].info;
    ghost var s := go.seed;
    var cuteCharmFlag, buffer := CharmRoll(g, info, rng, true);
    var nature: Nature, pid: u32, iv1: u16, iv2: u16;
    ghost var t: nat := 0;
    ghost var starts: seq<u32>, tries: seq<nat>, ivs: seq<(u16, u16)> := [], [], [];
    if cuteCharmFlag {
      nature := go.NextUShortMod(25);
      if !g.filter.compareNature(nature) {
        var _ := rng.Next();
        return NatureRejected(encounterSlot, nature);
      }
      pid := buffer + nature;
      iv1 := go.NextUShort();
      iv2 := go.NextUShort();
    } else if g.encounter == BugCatchingContest {
      nature, pid, iv1, iv2, starts, tries, ivs := ContestRounds(g.lead, go);
      if !g.filter.compareNature(nature) {
        assert ContestRun(g.lead, s, starts, tries, ivs) && nature == NatureAt(g.lead, starts[|ivs| - 1], true);
        var _ := rng.Next();
        return NatureRejected(encounterSlot, nature);
      }
    } else {
      var accepted;
      accepted, nature, pid, t := NatureThenPid(g, go, true, false, 0);
      if !accepted {
        var _ := rng.Next();
        return NatureRejected(encounterSlot, nature);
      }
      iv1 := go.NextUShort();
      iv2 := go.NextUShort();
    }
    a := ItemAndEmit(g, area, rng, go, advance, encounterSlot, level, nature, pid, iv1, iv2);
    if ContestPath(g, info.gender, old(rng.seed), true) {
      assert ContestEnds(g.lead, info, s, starts, tries, ivs, a.state);
    } else {
      assert DrawnFrom(g.lead, info, s, true, cuteCharmFlag, buffer, t, a.state);
    }
    DrawnKeepsNature(g, info, s, old(rng.seed), true, a.state);
  }

  /** One iteration of `generateMethodK`'s loop; `rate` is the doubled-or-not gate rate. */
  method AdvanceK(g: WildGenerator4, area: EncounterArea4, rate: u16, modifiedSlots: seq<nat>, rng: PokeRNG, advance: u32)
    returns (a: Attempt)
    requires area.Valid() && PidSearchTerminates()
    requires rate == EncounterRateK(area.rate, g.lead, g.encounter)
    requires modifiedSlots == area.GetSlots(g.lead)
    modifies rng
    ensures JustifiedJK(g, area, old(rng.seed), advance, true, a)
    ensures BaseStepped(g, area, a, old(rng.seed), rng.seed)
  {
    var go := new PokeRNG(rng.seed, 0);
    if IsRod(g.encounter) || g.encounter == RockSmash {
      var roll := go.NextUShortMod(100);
      if roll >= rate {
        var _ := rng.Next();
        return Gated;
      }
    }
    var encounterSlot := DrawSlot(g, area, modifiedSlots, go, true);
    if !g.filter.compareEncounterSlot(encounterSlot) {
      var _ := rng.Next();
      return SlotRejected(encounterSlot);
    }
    var level := CalculateLevel(area, encounterSlot, go, g.encounter != Grass, true, g.lead == Pressure);
    a := FinishK(g, area, rng, go, advance, encounterSlot, level);
  }

  // ---------------------------------------------------------------------------
  // One advance of the Poké Radar
  // ---------------------------------------------------------------------------

  /**
   * The radar's Cute Charm offset, with `*` in place of the `+` of the
   * as-written `RadarBufferAsWritten`; nothing for a fixed-gender species.
   */
  function RadarBuffer(gender: u8): (buffer: u8)
    ensures FixedGender(gender) ==> buffer == 0
    ensures !FixedGender(gender) && gender < 250 ==> buffer > gender && buffer % 25 == 0
  {
    if FixedGender(gender) then 0 else CharmBuffer(gender)
  }

  /** The corrected radar offset keeps the nature of every Cute Charm PID below the u8 wrap-around. */
  lemma RadarBufferKeepsNature(gender: u8, nature: Nature)
    requires gender < 250
    ensures (RadarBuffer(gender) + nature) % 25 == nature
  {
    if !FixedGender(gender) {
      CharmBufferKeepsNature(gender, nature);
    }
  }

  /**
   * What a radar state satisfies before the state filter: it is the chosen
   * slot at its maximum level, the filter accepted its nature, its item is
   * one `getItem` can give, and its PID has its nature (outside the u8
   * wrap-around of a non-shiny Cute Charm offset); a shiny search gives a
   * shiny PID.
   */
  ghost predicate RadarCandidate(g: WildGenerator4, area: EncounterArea4, index: nat, st: WildGeneratorState4) {
    && index < |area.pokemon|
    && st.encounterSlot == index
    && st.specie == area.pokemon[index].specie
    && st.info == area.pokemon[index].info
    && st.level == area.pokemon[index].maxLevel
    && st.tsv == g.tsv
    && g.filter.compareNature(st.nature)
    && ItemAllowed(st.item, st.info)
    && (g.shiny || !IsCuteCharm(g.lead) || st.info.gender < 250 ==> st.pid % 25 == st.nature)
    && (g.shiny ==> IsShiny(st.pid, g.tsv))
  }

  /** What every radar state in the result list satisfies. */
  ghost predicate RadarState(g: WildGenerator4, area: EncounterArea4, index: nat, st: WildGeneratorState4) {
    RadarCandidate(g, area, index, st) && g.filter.compareState(st)
  }

  /**
   * The shiny PID of a radar advance from seed s0: the first `shinyPID`,
   * re-rolled for Cute Charm after a nonzero 1-in-3 roll until the charm
   * check passes, or for Synchronize after a 1-in-2 roll of 0 until the PID
   * has the lead's nature; a first PID that already passes is kept.
   */
  ghost predicate ShinyRadar(g: WildGenerator4, gender: u8, s0: u32, pid: u32) {
    var first := ShinyPidAt(s0, g.tsv);
    var roll := Draw(Jump(s0, 15));
    var charmed := CharmActive(g.lead, gender) && DivBound(roll, 3) != 0;
    var synced := g.lead.Synchronize? && DivBound(roll, 2) == 0;
    && IsShiny(pid, g.tsv)
    && (charmed ==> CuteCharmCheck(g.lead, gender, pid))
    && (synced ==> pid % 25 == g.lead.nature)
    && (charmed && CuteCharmCheck(g.lead, gender, first) ==> pid == first)
    && (synced && first % 25 == g.lead.nature ==> pid == first)
    && (!charmed && !synced ==> pid == first)
  }

  /** The shiny branch of a radar advance on `go`. */
  method RadarShinyPid(g: WildGenerator4, gender: u8, go: PokeRNG) returns (pid: u32)
    requires RadarSearchTerminates(g, gender) && g.shiny
    modifies go
    ensures ShinyRadar(g, gender, old(go.seed), pid)
  {
    pid := ShinyPid(go, g.tsv);
    var charmed := false;
    if IsCuteCharm(g.lead) && !FixedGender(gender) {
      var roll := go.NextUShortDiv(3);
      charmed := roll != 0;
    }
    if charmed {
      var goal := CharmAccepts(g.lead, gender);
      ghost var k0 := ShinyWitness(go.seed, g.tsv, goal);
      pid := RerollShiny(go, g.tsv, goal, pid, k0);
    } else if g.lead.Synchronize? {
      var roll := go.NextUShortDiv(2);
      if roll == 0 {
        var goal := NatureIs(g.lead.nature);
        ghost var k0 := ShinyWitness(go.seed, g.tsv, goal);
        pid := RerollShiny(go, g.tsv, goal, pid, k0);
      }
    }
  }

  /**
   * The nature, PID, IVs and item of a radar state as drawn from seed s0:
   * shiny, the nature is the PID's; otherwise the Cute Charm roll on `go`,
   * then the draws of `DrawnFrom` with the radar's offset.
   */
  ghost predicate DrawnRadar(g: WildGenerator4, info: PersonalInfo, s0: u32, st: WildGeneratorState4) {
    if g.shiny then ShinyRadar(g, info.gender, s0, st.pid) && st.nature == st.pid % 25
    else exists t: nat :: DrawnFrom(g.lead, info, AfterCharm(g.lead, info.gender, s0), false,
                                    CharmFlag(g.lead, info.gender, s0, false), RadarBuffer(info.gender), t, st)
  }

  /** The built state of a radar advance from seed s0, before the state filter. */
  ghost predicate BuiltRadar(g: WildGenerator4, area: EncounterArea4, index: nat, s0: u32, advance: u32,
                             st: WildGeneratorState4) {
    && index < |area.pokemon|
    && RadarCandidate(g, area, index, st) && st.advances == advance && st.seed == Draw(s0)
    && DrawnRadar(g, area.pokemon[index].info, s0, st)
  }

  /**
   * Every outcome of a radar advance from seed s0 is accounted for: the
   * filter rejected the drawn nature or the built state, or it accepted the
   * built state (the radar has no gate and no slot check).
   */
  ghost predicate JustifiedRadar(g: WildGenerator4, area: EncounterArea4, index: nat, s0: u32, advance: u32, a: Attempt) {
    && index < |area.pokemon|
    && match a
       case Gated => false
       case SlotRejected(_) => false
       case NatureRejected(sl, n) =>
         && sl == index && !g.filter.compareNature(n)
         && (!g.shiny ==> n == NatureAt(g.lead, AfterCharm(g.lead, area.pokemon[index].info.gender, s0), false))
         && (g.shiny ==> exists pid: u32 :: ShinyRadar(g, area.pokemon[index].info.gender, s0, pid) && n == pid % 25)
       case StateRejected(st) => BuiltRadar(g, area, index, s0, advance, st) && !g.filter.compareState(st)
       case Accepted(st) => BuiltRadar(g, area, index, s0, advance, st) && g.filter.compareState(st)
  }

  /** The shiny branch of a radar advance, `go` starting at the base seed. */
  method RadarShinyAdvance(g: WildGenerator4, area: EncounterArea4, index: nat, rng: PokeRNG, go: PokeRNG, advance: u32)
    returns (a: Attempt)
    requires index < |area.pokemon| && g.shiny && rng != go && go.seed == rng.seed
    requires RadarSearchTerminates(g, area.pokemon[index].info.gender)
    modifies rng, go
    ensures JustifiedRadar(g, area, index, old(rng.seed), advance, a)
    ensures rng.seed == Step(old(rng.seed))
  {
    var slot := area.pokemon[index];
    var pid := RadarShinyPid(g, slot.info.gender, go);
    var nature := pid % 25;
    if !g.filter.compareNature(nature) {
      assert ShinyRadar(g, slot.info.gender, old(rng.seed), pid);
      var _ := rng.Next();
      return NatureRejected(index, nature);
    }
    var iv1 := go.NextUShort();
    var iv2 := go.NextUShort();
    GetItemAllowed(ModBound(Draw(go.seed), 100), g.lead, slot.info);
    a := ItemAndEmit(g, area, rng, go, advance, index, slot.maxLevel, nature, pid, iv1, iv2);
  }

  /**
   * The non-shiny branch of a radar advance, `go` starting at the base seed:
   * the Cute Charm roll on `go`, then nature, PID, IVs and item.
   */
  method RadarPlainAdvance(g: WildGenerator4, area: EncounterArea4, index: nat, rng: PokeRNG, go: PokeRNG, advance: u32)
    returns (a: Attempt)
    requires index < |area.pokemon| && !g.shiny && rng != go && go.seed == rng.seed
    requires PidSearchTerminates()
    modifies rng, go
    ensures JustifiedRadar(g, area, index, old(rng.seed), advance, a)
    ensures rng.seed == Step(old(rng.seed))
  {
    var slot := area.pokemon[index];
    var info := slot.info;
    var cuteCharmFlag := false;
    if IsCuteCharm(g.lead) && !FixedGender(info.gender) {
      var roll := go.NextUShortDiv(3);
      cuteCharmFlag := roll != 0;
    }
    var buffer := RadarBuffer(info.gender);
    var accepted, nature, pid, t := NatureThenPid(g, go, false, cuteCharmFlag, buffer);
    if !accepted {
      var _ := rng.Next();
      return NatureRejected(index, nature);
    }
    if cuteCharmFlag && info.gender < 250 {
      RadarBufferKeepsNature(info.gender, nature);
    }
    var iv1 := go.NextUShort();
    var iv2 := go.NextUShort();
    GetItemAllowed(ModBound(Draw(Step(Step(go.seed))), 100), g.lead, info);
    a := ItemAndEmit(g, area, rng, go, advance, index, slot.maxLevel, nature, pid, iv1, iv2);
    assert DrawnFrom(g.lead, info, AfterCharm(g.lead, info.gender, old(rng.seed)), false,
                     CharmFlag(g.lead, info.gender, old(rng.seed), false), buffer, t, a.state);
  }

  /** One iteration of `generatePokeRadar`'s loop, for the slot `index`. */
  method AdvanceRadar(g: WildGenerator4, area: EncounterArea4, index: nat, rng: PokeRNG, advance: u32)
    returns (a: Attempt)
    requires index < |area.pokemon| && PidSearchTerminates()
    requires RadarSearchTerminates(g, area.pokemon[index].info.gender)
    modifies rng
    ensures JustifiedRadar(g, area, index, old(rng.seed), advance, a)
    ensures rng.seed == Step(old(rng.seed))
  {
    var go := new PokeRNG(rng.seed, 0);
    if g.shiny {
      a := RadarShinyAdvance(g, area, index, rng, go, advance);
    } else {
      a := RadarPlainAdvance(g, area, index, rng, go, advance);
    }
  }

  // ---------------------------------------------------------------------------
  // The searches
  // ---------------------------------------------------------------------------

  /** The advance field written for loop count `cnt`: `initialAdvances + cnt` as a u32. */
  function AdvanceAt(g: WildGenerator4, cnt: nat): u32 {
    (g.initialAdvances + cnt) % 0x1_0000_0000
  }

  /** The loop count an advance field stands for, read back modulo 2^32. */
  function CountOf(g: WildGenerator4, advance: u32): nat {
    (advance - g.initialAdvances) % 0x1_0000_0000
  }

  lemma CountOfAdvanceAt(g: WildGenerator4, cnt: nat)
    requires cnt < 0x1_0000_0000
    ensures CountOf(g, AdvanceAt(g, cnt)) == cnt
  {
    var m := 0x1_0000_0000;
    if g.initialAdvances + cnt < m {
      assert AdvanceAt(g, cnt) == g.initialAdvances + cnt;
    } else {
      assert AdvanceAt(g, cnt) == g.initialAdvances + cnt - m;
      assert AdvanceAt(g, cnt) - g.initialAdvances == cnt - m;
    }
  }

  /**
   * Every state stands for a loop count below `bound`, and the counts
   * strictly increase along the list.
   */
  ghost predicate Windowed(g: WildGenerator4, states: seq<WildGeneratorState4>, bound: nat) {
    && (forall i :: 0 <= i < |states| ==> CountOf(g, states[i].advances) < bound)
    && (forall i, j :: 0 <= i < j < |states| ==> CountOf(g, states[i].advances) < CountOf(g, states[j].advances))
  }

  /** Appending the state of loop count `cnt` keeps the list windowed, now below cnt + 1. */
  lemma WindowedAppend(g: WildGenerator4, states: seq<WildGeneratorState4>, cnt: nat, st: WildGeneratorState4)
    requires Windowed(g, states, cnt) && cnt < 0x1_0000_0000 && st.advances == AdvanceAt(g, cnt)
    ensures Windowed(g, states + [st], cnt + 1)
  {
    CountOfAdvanceAt(g, cnt);
  }

  /** The u32 advance field does not wrap within the search window. */
  predicate NoWrap(g: WildGenerator4) {
    g.initialAdvances + g.maxAdvances < 0x1_0000_0000
  }

  /** Without wrap-around, a windowed list's advances increase and lie in the search window. */
  lemma WindowedNoWrap(g: WildGenerator4, states: seq<WildGeneratorState4>)
    requires Windowed(g, states, g.maxAdvances + 1) && NoWrap(g)
    ensures forall i, j :: 0 <= i < j < |states| ==> states[i].advances < states[j].advances
    ensures forall i :: 0 <= i < |states| ==>
              g.initialAdvances <= states[i].advances <= g.initialAdvances + g.maxAdvances
  {
    forall i | 0 <= i < |states|
      ensures CountOf(g, states[i].advances) == states[i].advances - g.initialAdvances
    {
    }
  }

  /** The states of the accepted attempts, in order: what a search appends to its result list. */
  function Kept(attempts: seq<Attempt>): (states: seq<WildGeneratorState4>)
    ensures |states| <= |attempts|
  {
    if attempts == [] then []
    else
      var last := attempts[|attempts| - 1];
      Kept(attempts[..|attempts| - 1]) + (if last.Accepted? then [last.state] else [])
  }

  lemma KeptAppend(attempts: seq<Attempt>, a: Attempt)
    ensures Kept(attempts + [a]) == Kept(attempts) + (if a.Accepted? then [a.state] else [])
  {
    assert (attempts + [a])[..|attempts|] == attempts;
  }

  /** Every kept state satisfies what every accepted attempt's state satisfies. */
  lemma {:induction false} KeptAll(attempts: seq<Attempt>, ok: WildGeneratorState4 -> bool)
    requires forall i :: 0 <= i < |attempts| && attempts[i].Accepted? ==> ok(attempts[i].state)
    ensures forall k :: 0 <= k < |Kept(attempts)| ==> ok(Kept(attempts)[k])
    decreases |attempts|
  {
    if attempts != [] {
      var front := attempts[..|attempts| - 1];
      assert forall i :: 0 <= i < |front| ==> front[i] == attempts[i];
      KeptAll(front, ok);
    }
  }

  /** When every attempt is accepted, every attempt is kept. */
  lemma {:induction false} KeptEvery(attempts: seq<Attempt>)
    requires forall i :: 0 <= i < |attempts| ==> attempts[i].Accepted?
    ensures |Kept(attempts)| == |attempts|
    decreases |attempts|
  {
    if attempts != [] {
      var front := attempts[..|attempts| - 1];
      assert forall i :: 0 <= i < |front| ==> front[i] == attempts[i];
      KeptEvery(front);
    }
  }

  /** A filter that accepts every slot, nature and state. */
  ghost predicate AcceptsAll(f: WildStateFilter4) {
    && (forall slot: nat :: f.compareEncounterSlot(slot))
    && (forall n: nat :: f.compareNature(n))
    && (forall st: WildGeneratorState4 :: f.compareState(st))
  }

  /** With an accept-all filter and no gate, a justified J / K attempt is accepted. */
  lemma AcceptAllJK(g: WildGenerator4, area: EncounterArea4, s0: u32, advance: u32, methodK: bool, a: Attempt)
    requires JustifiedJK(g, area, s0, advance, methodK, a)
    requires AcceptsAll(g.filter) && !HasGate(g.encounter, methodK)
    ensures a.Accepted?
  {
  }

  /** With an accept-all filter, a justified radar attempt is accepted. */
  lemma AcceptAllRadar(g: WildGenerator4, area: EncounterArea4, index: nat, s0: u32, advance: u32, a: Attempt)
    requires JustifiedRadar(g, area, index, s0, advance, a)
    requires AcceptsAll(g.filter)
    ensures a.Accepted?
  {
  }

  /** An accepted J / K attempt is a Method J / K state; with an accept-all filter and no gate it is accepted. */
  lemma JustifiedJKKept(g: WildGenerator4, area: EncounterArea4, s0: u32, advance: u32, methodK: bool, a: Attempt)
    requires JustifiedJK(g, area, s0, advance, methodK, a)
    ensures a.Accepted? ==> MethodJKState(g, area, a.state)
    ensures AcceptsAll(g.filter) && !HasGate(g.encounter, methodK) ==> a.Accepted?
  {
    if AcceptsAll(g.filter) && !HasGate(g.encounter, methodK) {
      AcceptAllJK(g, area, s0, advance, methodK, a);
    }
  }

  /**
   * The attempts of a J / K search, attempt i made from base seed seeds[i]
   * for loop count i, each accounted for by its draws, the base generator
   * stepping from one seed to the next.
   */
  ghost predicate JKRun(g: WildGenerator4, area: EncounterArea4, methodK: bool, seeds: seq<u32>, attempts: seq<Attempt>) {
    && |seeds| == |attempts| + 1
    && (forall i :: 0 <= i < |attempts| ==> JustifiedJK(g, area, seeds[i], AdvanceAt(g, i), methodK, attempts[i]))
    && (forall i :: 0 <= i < |attempts| ==> BaseStepped(g, area, attempts[i], seeds[i], seeds[i + 1]))
  }

  lemma JKRunAppend(g: WildGenerator4, area: EncounterArea4, methodK: bool, seeds: seq<u32>, attempts: seq<Attempt>,
                    a: Attempt, s: u32)
    requires JKRun(g, area, methodK, seeds, attempts)
    requires JustifiedJK(g, area, seeds[|attempts|], AdvanceAt(g, |attempts|), methodK, a)
    requires BaseStepped(g, area, a, seeds[|attempts|], s)
    ensures JKRun(g, area, methodK, seeds + [s], attempts + [a])
  {
    var seeds', attempts' := seeds + [s], attempts + [a];
    forall i | 0 <= i < |attempts'|
      ensures JustifiedJK(g, area, seeds'[i], AdvanceAt(g, i), methodK, attempts'[i])
      ensures BaseStepped(g, area, attempts'[i], seeds'[i], seeds'[i + 1])
    {
      if i < |attempts| {
        assert seeds'[i] == seeds[i] && seeds'[i + 1] == seeds[i + 1] && attempts'[i] == attempts[i];
      }
    }
  }

  /**
   * The kept states of a J / K run are Method J / K states, and with an
   * accept-all filter and no gate every attempt is kept.
   */
  lemma JKRunStates(g: WildGenerator4, area: EncounterArea4, methodK: bool, seeds: seq<u32>, attempts: seq<Attempt>)
    requires JKRun(g, area, methodK, seeds, attempts)
    ensures forall k :: 0 <= k < |Kept(attempts)| ==> MethodJKState(g, area, Kept(attempts)[k])
    ensures AcceptsAll(g.filter) && !HasGate(g.encounter, methodK) ==> |Kept(attempts)| == |attempts|
  {
    var every := AcceptsAll(g.filter) && !HasGate(g.encounter, methodK);
    forall i | 0 <= i < |attempts|
      ensures attempts[i].Accepted? ==> MethodJKState(g, area, attempts[i].state)
      ensures every ==> attempts[i].Accepted?
    {
      JustifiedJKKept(g, area, seeds[i], AdvanceAt(g, i), methodK, attempts[i]);
    }
    KeptAll(attempts, st => MethodJKState(g, area, st));
    if every {
      KeptEvery(attempts);
    }
  }

  /**
   * The attempts of a radar search, attempt i made from base seed seeds[i]
   * for loop count i, each accounted for by its draws; the base generator
   * steps once per advance.
   */
  ghost predicate RadarRun(g: WildGenerator4, area: EncounterArea4, index: nat, seeds: seq<u32>, attempts: seq<Attempt>) {
    && |seeds| == |attempts| + 1
    && (forall i :: 0 <= i < |attempts| ==> JustifiedRadar(g, area, index, seeds[i], AdvanceAt(g, i), attempts[i]))
    && (forall i :: 0 <= i < |attempts| ==> seeds[i + 1] == Step(seeds[i]))
  }

  lemma RadarRunAppend(g: WildGenerator4, area: EncounterArea4, index: nat, seeds: seq<u32>, attempts: seq<Attempt>,
                       a: Attempt, s: u32)
    requires RadarRun(g, area, index, seeds, attempts)
    requires JustifiedRadar(g, area, index, seeds[|attempts|], AdvanceAt(g, |attempts|), a)
    requires s == Step(seeds[|attempts|])
    ensures RadarRun(g, area, index, seeds + [s], attempts + [a])
  {
    var seeds', attempts' := seeds + [s], attempts + [a];
    forall i | 0 <= i < |attempts'|
      ensures JustifiedRadar(g, area, index, seeds'[i], AdvanceAt(g, i), attempts'[i])
      ensures seeds'[i + 1] == Step(seeds'[i])
    {
      if i < |attempts| {
        assert seeds'[i] == seeds[i] && seeds'[i + 1] == seeds[i + 1] && attempts'[i] == attempts[i];
      }
    }
  }

  /** An accepted radar attempt is a radar state; with an accept-all filter it is accepted. */
  lemma JustifiedRadarKept(g: WildGenerator4, area: EncounterArea4, index: nat, s0: u32, advance: u32, a: Attempt)
    requires JustifiedRadar(g, area, index, s0, advance, a)
    ensures a.Accepted? ==> RadarState(g, area, index, a.state)
    ensures AcceptsAll(g.filter) ==> a.Accepted?
  {
    if AcceptsAll(g.filter) {
      AcceptAllRadar(g, area, index, s0, advance, a);
    }
  }

  /** The kept states of a radar run are radar states, and with an accept-all filter every attempt is kept. */
  lemma RadarRunStates(g: WildGenerator4, area: EncounterArea4, index: nat, seeds: seq<u32>, attempts: seq<Attempt>)
    requires RadarRun(g, area, index, seeds, attempts)
    ensures forall k :: 0 <= k < |Kept(attempts)| ==> RadarState(g, area, index, Kept(attempts)[k])
    ensures AcceptsAll(g.filter) ==> |Kept(attempts)| == |attempts|
  {
    forall i | 0 <= i < |attempts|
      ensures attempts[i].Accepted? ==> RadarState(g, area, index, attempts[i].state)
      ensures AcceptsAll(g.filter) ==> attempts[i].Accepted?
    {
      JustifiedRadarKept(g, area, index, seeds[i], AdvanceAt(g, i), attempts[i]);
    }
    KeptAll(attempts, st => RadarState(g, area, index, st));
    if AcceptsAll(g.filter) {
      KeptEvery(attempts);
    }
  }

  /**
   * `generateMethodJ`: one attempt per advance from the base seed after
   * `initialAdvances + offset` steps, each accounted for by its draws, and
   * the accepted states in advance order.
   */
  method GenerateMethodJ(g: WildGenerator4, seed: u32, area: EncounterArea4)
    returns (states: seq<WildGeneratorState4>, ghost attempts: seq<Attempt>, ghost seeds: seq<u32>)
    requires area.Valid() && PidSearchTerminates()
    ensures |attempts| == g.maxAdvances + 1 && JKRun(g, area, false, seeds, attempts)
    ensures seeds[0] == Jump(seed, (g.initialAdvances + g.offset) % 0x1_0000_0000)
    ensures states == Kept(attempts)
    ensures forall i :: 0 <= i < |states| ==> MethodJKState(g, area, states[i])
    ensures Windowed(g, states, g.maxAdvances + 1)
    ensures AcceptsAll(g.filter) && !HasGate(g.encounter, false) ==> |states| == g.maxAdvances + 1
  {
    var modifiedSlots := area.GetSlots(g.lead);
    var rng := new PokeRNG(seed, (g.initialAdvances + g.offset) % 0x1_0000_0000);
    states, attempts, seeds := [], [], [rng.seed];
    var cnt: nat := 0;
    while cnt <= g.maxAdvances
      invariant cnt <= g.maxAdvances + 1 && |attempts| == cnt && JKRun(g, area, false, seeds, attempts)
      invariant seeds[0] == Jump(seed, (g.initialAdvances + g.offset) % 0x1_0000_0000) && seeds[cnt] == rng.seed
      invariant states == Kept(attempts)
      invariant Windowed(g, states, cnt)
    {
      var a := AdvanceJ(g, area, modifiedSlots, rng, AdvanceAt(g, cnt));
      JKRunAppend(g, area, false, seeds, attempts, a, rng.seed);
      KeptAppend(attempts, a);
      if a.Accepted? {
        WindowedAppend(g, states, cnt, a.state);
        states := states + [a.state];
      }
      attempts, seeds := attempts + [a], seeds + [rng.seed];
      cnt := cnt + 1;
    }
    JKRunStates(g, area, false, seeds, attempts);
  }

  /** `generateMethodK`: as Method J, with the K gate rate, draw forms and contest rounds. */
  method GenerateMethodK(g: WildGenerator4, seed: u32, area: EncounterArea4)
    returns (states: seq<WildGeneratorState4>, ghost attempts: seq<Attempt>, ghost seeds: seq<u32>)
    requires area.Valid() && PidSearchTerminates()
    ensures |attempts| == g.maxAdvances + 1 && JKRun(g, area, true, seeds, attempts)
    ensures seeds[0] == Jump(seed, (g.initialAdvances + g.offset) % 0x1_0000_0000)
    ensures states == Kept(attempts)
    ensures forall i :: 0 <= i < |states| ==> MethodJKState(g, area, states[i])
    ensures Windowed(g, states, g.maxAdvances + 1)
    ensures AcceptsAll(g.filter) && !HasGate(g.encounter, true) ==> |states| == g.maxAdvances + 1
  {
    var rate := EncounterRateK(area.rate, g.lead, g.encounter);
    var modifiedSlots := area.GetSlots(g.lead);
    var rng := new PokeRNG(seed, (g.initialAdvances + g.offset) % 0x1_0000_0000);
    states, attempts, seeds := [], [], [rng.seed];
    var cnt: nat := 0;
    while cnt <= g.maxAdvances
      invariant cnt <= g.maxAdvances + 1 && |attempts| == cnt && JKRun(g, area, true, seeds, attempts)
      invariant seeds[0] == Jump(seed, (g.initialAdvances + g.offset) % 0x1_0000_0000) && seeds[cnt] == rng.seed
      invariant states == Kept(attempts)
      invariant Windowed(g, states, cnt)
    {
      var a := AdvanceK(g, area, rate, modifiedSlots, rng, AdvanceAt(g, cnt));
      JKRunAppend(g, area, true, seeds, attempts, a, rng.seed);
      KeptAppend(attempts, a);
      if a.Accepted? {
        WindowedAppend(g, states, cnt, a.state);
        states := states + [a.state];
      }
      attempts, seeds := attempts + [a], seeds + [rng.seed];
      cnt := cnt + 1;
    }
    JKRunStates(g, area, true, seeds, attempts);
  }

  /** `generatePokeRadar`: every attempt is slot `index` at its maximum level. */
  method GeneratePokeRadar(g: WildGenerator4, seed: u32, area: EncounterArea4, index: nat)
    returns (states: seq<WildGeneratorState4>, ghost attempts: seq<Attempt>, ghost seeds: seq<u32>)
    requires index < |area.pokemon| && PidSearchTerminates()
    requires RadarSearchTerminates(g, area.pokemon[index].info.gender)
    ensures |attempts| == g.maxAdvances + 1 && RadarRun(g, area, index, seeds, attempts)
    ensures seeds[0] == Jump(seed, (g.initialAdvances + g.offset) % 0x1_0000_0000)
    ensures states == Kept(attempts)
    ensures forall i :: 0 <= i < |states| ==> RadarState(g, area, index, states[i])
    ensures Windowed(g, states, g.maxAdvances + 1)
    ensures AcceptsAll(g.filter) ==> |states| == g.maxAdvances + 1
  {
    var rng := new PokeRNG(seed, (g.initialAdvances + g.offset) % 0x1_0000_0000);
    states, attempts, seeds := [], [], [rng.seed];
    var cnt: nat := 0;
    while cnt <= g.maxAdvances
      invariant cnt <= g.maxAdvances + 1 && |attempts| == cnt && RadarRun(g, area, index, seeds, attempts)
      invariant seeds[0] == Jump(seed, (g.initialAdvances + g.offset) % 0x1_0000_0000) && seeds[cnt] == rng.seed
      invariant states == Kept(attempts)
      invariant Windowed(g, states, cnt)
    {
      var a := AdvanceRadar(g, area, index, rng, AdvanceAt(g, cnt));
      RadarRunAppend(g, area, index, seeds, attempts, a, rng.seed);
      KeptAppend(attempts, a);
      if a.Accepted? {
        WindowedAppend(g, states, cnt, a.state);
        states := states + [a.state];
      }
      attempts, seeds := attempts + [a], seeds + [rng.seed];
      cnt := cnt + 1;
    }
    RadarRunStates(g, area, index, seeds, attempts);
  }

  /** The methods the wild search handles. */
  predicate Supported(m: Method) {
    m == MethodJ || m == MethodK || m == PokeRadar
  }

  /** The search's advances have no gate roll that could discard them. */
  predicate Ungated(g: WildGenerator4) {
    match g.pidMethod
    case MethodJ => !HasGate(g.encounter, false)
    case MethodK => !HasGate(g.encounter, true)
    case PokeRadar => true
    case _ => false
  }

  /** `generate`: dispatch on the PID method; any other method gives no states. */
  method Generate(g: WildGenerator4, seed: u32, area: EncounterArea4, index: nat)
    returns (states: seq<WildGeneratorState4>, ghost attempts: seq<Attempt>, ghost seeds: seq<u32>)
    requires Supported(g.pidMethod) ==> PidSearchTerminates()
    requires g.pidMethod == MethodJ || g.pidMethod == MethodK ==> area.Valid()
    requires g.pidMethod == PokeRadar ==>
               index < |area.pokemon| && RadarSearchTerminates(g, area.pokemon[index].info.gender)
    ensures !Supported(g.pidMethod) ==> states == []
    ensures Supported(g.pidMethod) ==>
              && |attempts| == g.maxAdvances + 1 && states == Kept(attempts)
              && |seeds| == |attempts| + 1 && seeds[0] == Jump(seed, (g.initialAdvances + g.offset) % 0x1_0000_0000)
    ensures g.pidMethod == MethodJ ==> JKRun(g, area, false, seeds, attempts)
    ensures g.pidMethod == MethodK ==> JKRun(g, area, true, seeds, attempts)
    ensures g.pidMethod == PokeRadar ==> RadarRun(g, area, index, seeds, attempts)
    ensures |states| <= g.maxAdvances + 1
    ensures AcceptsAll(g.filter) && Ungated(g) ==> |states| == g.maxAdvances + 1
    ensures Windowed(g, states, g.maxAdvances + 1)
    ensures NoWrap(g) ==> forall i, j :: 0 <= i < j < |states| ==> states[i].advances < states[j].advances
    ensures NoWrap(g) ==> forall i :: 0 <= i < |states| ==>
              g.initialAdvances <= states[i].advances <= g.initialAdvances + g.maxAdvances
    ensures g.pidMethod == MethodJ || g.pidMethod == MethodK ==>
              forall i :: 0 <= i < |states| ==> MethodJKState(g, area, states[i])
    ensures g.pidMethod == PokeRadar ==> forall i :: 0 <= i < |states| ==> RadarState(g, area, index, states[i])
  {
    match g.pidMethod {
      case MethodJ => states, attempts, seeds := GenerateMethodJ(g, seed, area);
      case MethodK => states, attempts, seeds := GenerateMethodK(g, seed, area);
      case PokeRadar => states, attempts, seeds := GeneratePokeRadar(g, seed, area, index);
      case _ => states, attempts, seeds := [], [], [];
    }
    if NoWrap(g) {
      WindowedNoWrap(g, states);
    }
  }
}
