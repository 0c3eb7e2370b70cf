/**
 * The values the Gen 4 wild search works on: lead abilities, encounter kinds,
 * the encounter area with its slots, the state filter and the emitted state.
 *
 * The area, the slot tables (`EncounterSlot::jSlot` / `kSlot`) and the filter
 * are collaborators whose code is not part of this model; they are carried as
 * data here (the two slot tables and the three filter predicates as function
 * values), constrained only by what the search needs of them.
 */
module Encounters {
  import opened PokeRng

  type Nature = n: nat | n < 25

  /** The lead Pokémon's influence. A Synchronize lead carries its nature. */
  datatype Lead =
    | Synchronize(nature: Nature)
    | CuteCharmM
    | CuteCharmF
    | MagnetPull
    | Static
    | Pressure
    | SuctionCups
    | CompoundEyes
    | ArenaTrap
    | None

  predicate IsCuteCharm(lead: Lead) {
    lead == CuteCharmM || lead == CuteCharmF
  }

  datatype Encounter =
    | Grass
    | Surfing
    | OldRod
    | GoodRod
    | SuperRod
    | RockSmash
    | Headbutt
    | BugCatchingContest

  predicate IsRod(e: Encounter) {
    e == OldRod || e == GoodRod || e == SuperRod
  }

  /** The PID method; the wild search handles J, K and the Poké Radar only. */
  datatype Method = Method1 | Method2 | Method4 | MethodJ | MethodK | PokeRadar

  /** The species data the search reads: gender ratio and the two held items. */
  datatype PersonalInfo = PersonalInfo(gender: u8, item0: u16, item1: u16)

  /** Gender ratios 0, 254 and 255 mean a fixed gender (Cute Charm cannot act). */
  predicate FixedGender(gender: u8) {
    gender == 0 || gender == 254 || gender == 255
  }

  datatype Slot = Slot(specie: u16, minLevel: u8, maxLevel: u8, info: PersonalInfo)

  /**
   * An encounter area: its rate, its slots, the slot subsets that Magnet Pull
   * and Static narrow to, and the two roll-to-slot tables (Method J, Method K).
   */
  datatype EncounterArea4 = EncounterArea4(
    rate: u8,
    pokemon: seq<Slot>,
    magnetPullSlots: seq<nat>,
    staticSlots: seq<nat>,
    jSlot: (nat, Encounter) -> nat,
    kSlot: (nat, Encounter) -> nat)
  {
    /** Every slot index the area can hand out is a valid index. */
    ghost predicate Valid() {
      0 < |pokemon| <= 0x100
      && (forall i :: 0 <= i < |pokemon| ==> pokemon[i].minLevel <= pokemon[i].maxLevel)
      && |magnetPullSlots| <= 0xFFFF && |staticSlots| <= 0xFFFF
      && (forall i :: 0 <= i < |magnetPullSlots| ==> magnetPullSlots[i] < |pokemon|)
      && (forall i :: 0 <= i < |staticSlots| ==> staticSlots[i] < |pokemon|)
      && (forall roll: nat, e: Encounter :: roll < 100 ==> jSlot(roll, e) < |pokemon|)
      && (forall roll: nat, e: Encounter :: roll < 100 ==> kSlot(roll, e) < |pokemon|)
    }

    /** `getSlots(lead)`: the narrowed subset for Magnet Pull or Static, else empty. */
    function GetSlots(lead: Lead): (slots: seq<nat>)
      requires Valid()
      ensures |slots| <= 0xFFFF
      ensures forall i :: 0 <= i < |slots| ==> slots[i] < |pokemon|
      ensures lead != MagnetPull && lead != Static ==> slots == []
    {
      match lead
      case MagnetPull => magnetPullSlots
      case Static => staticSlots
      case _ => []
    }
  }

  /**
   * The level `calculateLevel` gives from seed s: for non-grass areas (the
   * `diff` form) the minimum plus one bounded draw of the range, of the
   * modulo form in Method K and of the division form in Method J; on grass
   * the slot's maximum level, without a draw.
   */
  function LevelAt(slot: Slot, s: u32, diff: bool, modulo: bool): (level: u8)
    requires slot.minLevel <= slot.maxLevel
    ensures slot.minLevel <= level <= slot.maxLevel
    ensures !diff ==> level == slot.maxLevel
  {
    if diff then slot.minLevel + Bounded(Draw(s), slot.maxLevel - slot.minLevel + 1, modulo) else slot.maxLevel
  }

  /**
   * `calculateLevel` on `go`: a draw of the level range for non-grass areas,
   * none on grass. The Pressure flag is accepted but not modelled.
   */
  method CalculateLevel(area: EncounterArea4, encounterSlot: nat, go: PokeRNG, diff: bool, modulo: bool, force: bool)
    returns (level: u8)
    requires area.Valid() && encounterSlot < |area.pokemon|
    modifies go
    ensures level == LevelAt(area.pokemon[encounterSlot], old(go.seed), diff, modulo)
    ensures go.seed == if diff then Step(old(go.seed)) else old(go.seed)
  {
    var slot := area.pokemon[encounterSlot];
    if diff {
      var range := slot.maxLevel - slot.minLevel + 1;
      var rand: nat;
      if modulo {
        rand := go.NextUShortMod(range);
      } else {
        rand := go.NextUShortDiv(range);
      }
      level := slot.minLevel + rand;
    } else {
      level := slot.maxLevel;
    }
  }

  /** `WildGeneratorState4`: one emitted encounter. */
  datatype WildGeneratorState4 = WildGeneratorState4(
    seed: u16,
    advances: u32,
    pid: u32,
    nature: Nature,
    iv1: u16,
    iv2: u16,
    tsv: u16,
    level: u8,
    encounterSlot: nat,
    item: u16,
    specie: u16,
    info: PersonalInfo)

  /** `WildStateFilter4`: the three checks the search consults. */
  datatype WildStateFilter4 = WildStateFilter4(
    compareEncounterSlot: nat -> bool,
    compareNature: nat -> bool,
    compareState: WildGeneratorState4 -> bool)
}
