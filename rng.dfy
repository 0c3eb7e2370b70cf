/**
 * The 32-bit linear congruential generator that Gen 4 games draw from
 * (`PokeRNG`): a seed, a step function, a raw 16-bit draw (the high half of
 * the stepped seed) and the two bounded draws the search code mixes.
 */
module PokeRng {

  type u8 = x: int | 0 <= x < 0x100
  type u16 = x: int | 0 <= x < 0x1_0000
  type u32 = x: int | 0 <= x < 0x1_0000_0000

  /**
   * One application of the state-transition function, modulo 2^32: multiplier
   * 0x41C64E6D, increment 0x6073 (written as literals so that the solver sees
   * a product by a constant, not a product of two unknowns).
   */
  function Step(s: u32): u32 {
    (s * 0x41C6_4E6D + 0x6073) % 0x1_0000_0000
  }

  /** The seed after n steps. */
  function Jump(s: u32, n: nat): u32
    decreases n
  {
    if n == 0 then s else Step(Jump(s, n - 1))
  }

  /** The raw 16-bit value drawn from seed s: the high half of the next seed. */
  function Draw(s: u32): u16 {
    Step(s) / 0x1_0000
  }

  /** The default bounded draw, `nextUShort(n)`: the raw value modulo n. */
  function ModBound(raw: u16, n: nat): (r: nat)
    requires 0 < n
    ensures r < n
  {
    raw % n
  }

  /** The `nextUShort<false>(n)` draw: the raw value divided by 0xffff / n + 1. */
  function DivBound(raw: u16, n: nat): (r: nat)
    requires 0 < n <= 0xFFFF
    ensures r < n
  {
    DivBelow(raw, n, 0xFFFF / n + 1);
    raw / (0xFFFF / n + 1)
  }

  lemma DivBelow(raw: u16, n: nat, d: nat)
    requires 0 < n <= 0xFFFF && d == 0xFFFF / n + 1
    ensures raw / d < n
  {
    var q, m := 0xFFFF / n, 0xFFFF % n;
    assert 0xFFFF == n * q + m && m < n;
    assert n * d == n * q + n;
    var t := raw / d;
    assert raw == t * d + raw % d && raw % d >= 0;
  }

  /** The draw form a caller uses: modulo (`nextUShort(n)`) or division (`nextUShort<false>(n)`). */
  function Bounded(raw: u16, n: nat, modulo: bool): (r: nat)
    requires 0 < n <= 0xFFFF
    ensures r < n
  {
    if modulo then ModBound(raw, n) else DivBound(raw, n)
  }

  class PokeRNG {
    var seed: u32

    /** `PokeRNG(seed, advances)`: starts at `seed` and steps `advances` times. */
    constructor (seed0: u32, advances: nat)
      ensures seed == Jump(seed0, advances)
    {
      var s, i := seed0, 0;
      while i < advances
        invariant i <= advances
        invariant s == Jump(seed0, i)
      {
        s := Step(s);
        i := i + 1;
      }
      seed := s;
    }

    /** `next()`: one step; returns the new seed. */
    method Next() returns (s: u32)
      modifies this
      ensures seed == Step(old(seed)) && s == seed
    {
      seed := Step(seed);
      s := seed;
    }

    /** `nextUShort()`: one step; returns the high 16 bits of the new seed. */
    method NextUShort() returns (r: u16)
      modifies this
      ensures seed == Step(old(seed))
      ensures r == Draw(old(seed))
    {
      seed := Step(seed);
      r := seed / 0x1_0000;
    }

    /** `nextUShort(n)`: one raw draw, reduced modulo n. */
    method NextUShortMod(n: nat) returns (r: nat)
      requires 0 < n <= 0xFFFF
      modifies this
      ensures r < n
      ensures seed == Step(old(seed)) && r == ModBound(Draw(old(seed)), n)
    {
      var raw := NextUShort();
      r := raw % n;
    }

    /** `nextUShort<false>(n)`: one raw draw, scaled down by division. */
    method NextUShortDiv(n: nat) returns (r: nat)
      requires 0 < n <= 0xFFFF
      modifies this
      ensures r < n
      ensures seed == Step(old(seed)) && r == DivBound(Draw(old(seed)), n)
    {
      var raw := NextUShort();
      r := DivBound(raw, n);
    }
  }
}
