# Gen 4 wild-encounter search and the trainer-ID filter, in Dafny

This project models two parts of a Pokémon RNG search tool.

**The Gen 4 wild-encounter generator (`WildGenerator4`).** Starting from a seed, it walks the 32-bit
linear congruential generator (`PokeRNG`) over a window of advances. At every advance, a copy `go` of the
base generator `rng` replays the draws the game makes for a wild encounter, in this order:

1. the fishing / Rock Smash rate gate;
2. the encounter slot, narrowed by Magnet Pull and Static;
3. the level;
4. the Cute Charm roll;
5. the nature, including Synchronize;
6. the PID that matches the nature, or a shiny PID for the Poké Radar;
7. two IV words;
8. the held item.

The state is kept when the filter accepts it. Three PID methods are handled:

- **Method J** uses the division form of the bounded draw.
- **Method K** uses the modulo form and adds the Bug-Catching Contest rounds.
- **The Poké Radar** uses a fixed slot, the maximum level, and an optional shiny PID built from the
  trainer shiny value (TSV). Cute Charm and Synchronize re-roll that PID.

**The ID filter widget (`IDsFilter`).** It has two multi-line text boxes. Each is rewritten line by
line into canonical decimal form whenever it changes:

- the TID, SID, combined `TID/SID` and display-TID modes apply to the ID box;
- the TSV box has its own rule.

The `IDFilter` value is built from the two boxes.

Files:

- `rng.dfy`: module `PokeRng`. Holds the machine integer types, the generator's step, raw and bounded
  draws, and the `PokeRNG` class, whose seed is updated in place.
- `encounter.dfy`: module `Encounters`. Holds the leads, encounter kinds, slots, the encounter area,
  the level calculation, the emitted state and the filter.
- `wild.dfy`: module `Gen4Wild`. Holds the item roll, the Cute Charm offsets, the PID searches, the shiny
  PID, the three per-advance procedures, the three search loops and `generate`.
- `text.dfy`: module `Text`. Holds the string operations the widget uses: split and join, keeping a
  character class, counting and removing a character, decimal printing and parsing.
- `ids_filter.dfy`: module `IdsFilter`. Holds the per-line rewrites, their properties, the whole-box
  rewrites, the filter extraction, and the `IDsFilter` class. That class has the checked mode and the
  two boxes as fields.

### How the searches are specified

Every step that draws from a generator is a method whose contract ties its results to pure functions
of the seed it started from. Examples are `NatureAt`, `SlotAt`, `LevelAt`, `PidAt`/`FirstPid`,
`ShinyPidAt` and `ContestRun`. The per-advance methods (`AdvanceJ`, `AdvanceK`, `AdvanceRadar`) return an
`Attempt`: gated, slot rejected, nature rejected, state rejected, or accepted. Their contract
`JustifiedJK` / `JustifiedRadar` fixes which of these happens and with which values, from the base seed
alone. So a state is emitted exactly when the gate passes and the slot, nature and state filters accept.
The search loops return, as ghost outputs, the attempt of every advance and the base seed before it. The
kept states are exactly the accepted attempts, in order (`Kept`).

### How the model stands in for what it cannot see

**Unbounded retry loops.** The source retries until the game's condition holds:

- the PID `do … while (pid % 25 != nature)`;
- the shiny re-rolls until the Cute Charm check or the Synchronize nature holds.

These loops end only because the generator's sequence eventually produces a match. The model states
that as a hypothesis: `PidSearchTerminates`, `ShinySearchTerminates` and `RadarSearchTerminates`. It
uses a ghost witness count as the loop's `decreases` measure.

**Slot tables and filter.** The slot tables `jSlot` / `kSlot` and the filter's three checks are
function values. The model assumes only what the search needs: the tables always give a valid index.

### Facts about the code that the contracts follow

- **Cute Charm roll.** In Methods J and K the code draws the Cute Charm roll from the base generator
  `rng`, not from the per-advance copy `go` (WildGenerator4.cpp:135, 262). When that roll is made,
  `rng` moves two steps in that advance instead of one. `BaseStepped` says how far `rng` moves in each
  outcome: one step after a failed gate or a rejected slot, and otherwise one step past `AfterCharm`.
  `AfterCharm` adds a step exactly when the lead is Cute Charm and the species has both genders. In the
  radar the roll is on `go` (WildGenerator4.cpp:460).
- **Starting position.** The base generator starts at `initialAdvances + offset`. Each advance
  steps it exactly as above. It is not re-positioned at each advance.
- **PID mod 25.** The code makes a non-shiny PID agree with its nature mod 25 in two ways. One is the
  `do … while (pid % 25 != nature)` loop. The other is the Cute Charm PID `buffer + nature`, where J and K
  compute the `u8` buffer `25 * (gender / 25 + 1)` (WildGenerator4.cpp:138, 265). That buffer is a
  multiple of 25 only when the gender ratio is below 250. For ratios 250 to 253 the product wraps past
  255. So `MethodJKState` promises `pid % 25 == nature` except for a male Cute Charm lead and a species
  whose ratio is 250 to 253. `RadarState` promises it for shiny PIDs always, and for non-shiny ones
  except for a Cute Charm lead and a ratio of 250 to 253. It does so with the corrected radar buffer
  (see Findings and Left out).
- **Advances and u32 wrap.** The emitted `advances` are `initialAdvances + cnt` in 32-bit arithmetic.
  They increase strictly only when the window does not wrap (`NoWrap`). The loop position `CountOf`
  always increases.

The model follows the code, except for the two lines listed under Findings: there the searches use the
corrected line.

## Model

| member | source | states |
|---|---|---|
| PokeRng.PokeRNG.constructor | Source/Core/Gen4/Generators/WildGenerator4.cpp:80 | the generator starts at the seed advanced `initialAdvances + offset` times |
| PokeRng.PokeRNG.NextUShortMod | Source/Core/Gen4/Generators/WildGenerator4.cpp:215 | the modulo bounded draw: one step, result below n, equal to the raw draw mod n |
| PokeRng.PokeRNG.NextUShortDiv | Source/Core/Gen4/Generators/WildGenerator4.cpp:88 | the `<false>` draw: one step, result below n, equal to the raw draw divided by 0xffff/n+1 |
| PokeRng.DivBound | Source/Core/Gen4/Generators/WildGenerator4.cpp:88 | the division form of the draw always lands below its bound n |
| Encounters.EncounterArea4.GetSlots | Source/Core/Gen4/Generators/WildGenerator4.cpp:78 | Magnet Pull / Static narrow to valid slot indices; any other lead gets no subset |
| Encounters.LevelAt | Source/Core/Gen4/Generators/WildGenerator4.cpp:111-118 | the level drawn from a seed lies within the slot's minimum and maximum, and is the maximum on grass |
| Encounters.CalculateLevel | Source/Core/Gen4/Generators/WildGenerator4.cpp:111-118 | the level is `LevelAt` of the starting seed; `go` steps once off grass and not at all on grass |
| Gen4Wild.GetItem | Source/Core/Gen4/Generators/WildGenerator4.cpp:30-50 | two equal non-zero items are always held; otherwise no item below 45 (20 with Compound Eyes), item 0 below 95 (80), else item 1 |
| Gen4Wild.GetItemAllowed | Source/Core/Gen4/Generators/WildGenerator4.cpp:30-50 | the held item is always 0 or one of the species' two items |
| Gen4Wild.CharmBuffer | Source/Core/Gen4/Generators/WildGenerator4.cpp:138 | for a gender ratio below 250 the male Cute Charm offset is a multiple of 25 above the ratio |
| Gen4Wild.CharmBufferKeepsNature | Source/Core/Gen4/Generators/WildGenerator4.cpp:265 | the male Cute Charm offset plus a nature keeps that nature mod 25 (gender ratio below 250) |
| Gen4Wild.RadarBufferAsWrittenLosesNature | Source/Core/Gen4/Generators/WildGenerator4.cpp:399 | the radar offset as written breaks the nature: gender 127, nature 0 gives a PID with remainder 6 |
| Gen4Wild.RadarBuffer | Source/Core/Gen4/Generators/WildGenerator4.cpp:389-401 | corrected radar offset: 0 for fixed genders, else a multiple of 25 above the gender ratio |
| Gen4Wild.RadarBufferKeepsNature | Source/Core/Gen4/Generators/WildGenerator4.cpp:480 | with the corrected offset, a Cute Charm PID has the drawn nature mod 25 |
| Gen4Wild.CuteCharmChecksSplit | Source/Core/Gen4/Generators/WildGenerator4.cpp:403-409 | the female-lead check accepts a PID exactly when the male-lead check rejects it |
| Gen4Wild.PidAt | Source/Core/Gen4/Generators/WildGenerator4.cpp:169-171 | the PID from a seed has the second draw as its high half and the first draw as its low half |
| Gen4Wild.DrawPair | Source/Core/Gen4/Generators/WildGenerator4.cpp:169-171 | two draws on `go` give `PidAt` of the seed they started from, and move `go` two steps |
| Gen4Wild.PidWitness | Source/Core/Gen4/Generators/WildGenerator4.cpp:167-172 | under the termination hypothesis, some number of draw pairs gives a PID with the nature |
| Gen4Wild.FirstPidUnique | Source/Core/Gen4/Generators/WildGenerator4.cpp:167-172 | the first draw pair whose PID has the nature is unique: its index and PID are determined by the seed |
| Gen4Wild.DrawPid | Source/Core/Gen4/Generators/WildGenerator4.cpp:167-172 | the PID loop returns the first PID from a draw pair (low, high) whose remainder mod 25 is the nature, and leaves `go` two steps per try further |
| Gen4Wild.XorAssoc | Source/Core/Gen4/Generators/WildGenerator4.cpp:428 | exclusive or on naturals is associative (with `XorSelf`, `XorZero`, `XorBound`) |
| Gen4Wild.XorBound | Source/Core/Gen4/Generators/WildGenerator4.cpp:428 | the exclusive or of two n-bit values is an n-bit value |
| Gen4Wild.ShinyHigh | Source/Core/Gen4/Generators/WildGenerator4.cpp:423-428 | the high half built from the TSV is 16 bits, and its exclusive or with the low half and the TSV is below 8 |
| Gen4Wild.JoinHalves | Source/Core/Gen4/Generators/WildGenerator4.cpp:429 | the high half shifted up 16 bits and or-ed with the low half gives a PID with exactly those halves |
| Gen4Wild.ShinyPidFrom | Source/Core/Gen4/Generators/WildGenerator4.cpp:421-430 | the assembled PID is shiny for the TSV and keeps the drawn low half |
| Gen4Wild.ShinyPidAt | Source/Core/Gen4/Generators/WildGenerator4.cpp:421-430 | the PID the shiny lambda computes from a seed is always shiny |
| Gen4Wild.ShinyPid | Source/Core/Gen4/Generators/WildGenerator4.cpp:421-430 | the shiny lambda: 15 draws, result equal to `ShinyPidAt` of the starting seed |
| Gen4Wild.ShinyLowBits | Source/Core/Gen4/Generators/WildGenerator4.cpp:424-427 | the 13-bit loop ORs the low bit of each draw into bits 3 to 15 of the low half |
| Gen4Wild.RerollShiny | Source/Core/Gen4/Generators/WildGenerator4.cpp:433-446 | the re-roll loops end with a shiny PID meeting the Cute Charm check or the Synchronize nature; an initial PID that already meets it is kept |
| Gen4Wild.BoundedDraw | Source/Core/Gen4/Generators/WildGenerator4.cpp:147 | one step, and the modulo or division bounded draw of the starting seed, below n |
| Gen4Wild.DrawNature | Source/Core/Gen4/Generators/WildGenerator4.cpp:145-152 | the nature is `NatureAt` of the starting seed: the Synchronize nature when its 1-in-2 roll is 0, else the bounded draw of 25 after that roll (or the first draw without Synchronize); `go` ends one or two steps on accordingly |
| Gen4Wild.MaxedIVCheck | Source/Core/Gen4/Generators/WildGenerator4.cpp:313-326 | the contest loop exits exactly when one of the six 5-bit IV fields is 31 |
| Gen4Wild.ContestRound | Source/Core/Gen4/Generators/WildGenerator4.cpp:294-311 | one contest round from `go`'s seed: the drawn nature, the first PID with it, the next two draws as IVs, and `go` left after them (`RoundFrom`) |
| Gen4Wild.ContestRounds | Source/Core/Gen4/Generators/WildGenerator4.cpp:290-332 | 1 to 4 rounds, each one `RoundFrom` the end of the previous one on `go`; every round but the last has no IV of 31; stopping early means the last has one; the result is the last round's nature, PID and IVs |
| Gen4Wild.ContestKeepsNature | Source/Core/Gen4/Generators/WildGenerator4.cpp:290-339 | a state built from the contest rounds has its PID's remainder mod 25 equal to its nature, and an allowed item |
| Gen4Wild.NatureThenPid | Source/Core/Gen4/Generators/WildGenerator4.cpp:144-173 | the nature is `NatureAt` of `go`'s seed; accepted exactly when the nature filter accepts it; then the PID is `buffer + nature` on the Cute Charm path, else the first draw pair with the nature |
| Gen4Wild.DrawSlot | Source/Core/Gen4/Generators/WildGenerator4.cpp:94-102 | the slot is `SlotAt` of `go`'s seed: an entry of the narrowed subset when the narrowing roll applies, else `jSlot`/`kSlot` of the 0..99 roll; it is a valid index |
| Gen4Wild.CharmRoll | Source/Core/Gen4/Generators/WildGenerator4.cpp:123-141 | the Cute Charm roll steps the base generator once only for a two-gender species, the flag is that roll being nonzero, and the buffer is set only for a male Cute Charm lead |
| Gen4Wild.ItemAndEmit | Source/Core/Gen4/Generators/WildGenerator4.cpp:175-184 | the state's seed is the base generator's next draw and its item is `getItem` of `go`'s next 0..99 roll; it is kept exactly when the filter accepts it |
| Gen4Wild.DrawnFromKeepsNature | Source/Core/Gen4/Generators/WildGenerator4.cpp:160-177 | a state drawn by the nature, PID, IV and item draws has an allowed item and its nature mod 25, outside the male Cute Charm offset's wrap-around |
| Gen4Wild.FinishJ | Source/Core/Gen4/Generators/WildGenerator4.cpp:120-184 | after the slot and level: a rejected nature is `NatureAt` of `go`'s seed; otherwise the state is built from the draws (`BuiltJK`) and kept exactly when the filter accepts it; the base generator moves one step past the Cute Charm roll |
| Gen4Wild.AdvanceJ | Source/Core/Gen4/Generators/WildGenerator4.cpp:82-184 | one J advance: its outcome and values are fixed by the base seed (`JustifiedJK`), and the base generator's step is `BaseStepped` |
| Gen4Wild.EncounterRateK | Source/Core/Gen4/Generators/WildGenerator4.cpp:194-203 | the K rate is doubled for Suction Cups when fishing and for Arena Trap on Rock Smash, else unchanged |
| Gen4Wild.FinishK | Source/Core/Gen4/Generators/WildGenerator4.cpp:247-376 | as `FinishJ` for K; on the contest path the rejected nature and the state's nature, PID and IVs are those of the last contest round |
| Gen4Wild.AdvanceK | Source/Core/Gen4/Generators/WildGenerator4.cpp:208-376 | one K advance with the K rate: its outcome and values are fixed by the base seed (`JustifiedJK`), and the base generator's step is `BaseStepped` |
| Gen4Wild.JustifiedJKKept | Source/Core/Gen4/Generators/WildGenerator4.cpp:179-184 | an accepted J/K attempt satisfies `MethodJKState`; with an accept-all filter and no rate gate every attempt is accepted |
| Gen4Wild.RadarShinyPid | Source/Core/Gen4/Generators/WildGenerator4.cpp:421-446 | the shiny radar PID is shiny; after a nonzero Cute Charm roll it passes the charm check; after a zero Synchronize roll it has the lead's nature; a first PID that already qualifies, or any first PID when neither roll applies, is kept |
| Gen4Wild.RadarShinyAdvance | Source/Core/Gen4/Generators/WildGenerator4.cpp:419-454 | one shiny radar advance satisfies `JustifiedRadar`; the base generator steps once |
| Gen4Wild.RadarPlainAdvance | Source/Core/Gen4/Generators/WildGenerator4.cpp:455-502 | one non-shiny radar advance satisfies `JustifiedRadar`: Cute Charm roll on `go`, `NatureAt`, then the corrected-offset or first matching PID; the base generator steps once |
| Gen4Wild.AdvanceRadar | Source/Core/Gen4/Generators/WildGenerator4.cpp:413-503 | one radar advance: its outcome and values are fixed by the base seed (`JustifiedRadar`) and the base generator steps once |
| Gen4Wild.JustifiedRadarKept | Source/Core/Gen4/Generators/WildGenerator4.cpp:499-502 | an accepted radar attempt satisfies `RadarState`; with an accept-all filter every attempt is accepted |
| Gen4Wild.CountOfAdvanceAt | Source/Core/Gen4/Generators/WildGenerator4.cpp:179 | the loop count is recovered from the 32-bit advance `initialAdvances + cnt` |
| Gen4Wild.WindowedAppend | Source/Core/Gen4/Generators/WildGenerator4.cpp:181-184 | appending the state of the next count keeps the list in strictly increasing count order within the window |
| Gen4Wild.WindowedNoWrap | Source/Core/Gen4/Generators/WildGenerator4.cpp:81 | without wrap, the emitted advances increase strictly and lie in [initialAdvances, initialAdvances+maxAdvances] |
| Gen4Wild.KeptAppend | Source/Core/Gen4/Generators/WildGenerator4.cpp:181-184 | one more attempt adds its state to the kept list exactly when it was accepted |
| Gen4Wild.KeptEvery | Source/Core/Gen4/Generators/WildGenerator4.cpp:181-184 | when every attempt is accepted, every attempt's state is kept |
| Gen4Wild.JKRunStates | Source/Core/Gen4/Generators/WildGenerator4.cpp:81-185 | every kept state of a J/K run satisfies `MethodJKState`; with an accept-all filter and no gate, all advances are kept |
| Gen4Wild.RadarRunStates | Source/Core/Gen4/Generators/WildGenerator4.cpp:412-503 | every kept state of a radar run satisfies `RadarState`; with an accept-all filter, all advances are kept |
| Gen4Wild.GenerateMethodJ | Source/Core/Gen4/Generators/WildGenerator4.cpp:73-188 | maxAdvances+1 attempts, each justified from its base seed, starting at `initialAdvances + offset`; the result is exactly the accepted states, each a valid J state, in increasing advance order |
| Gen4Wild.GenerateMethodK | Source/Core/Gen4/Generators/WildGenerator4.cpp:190-380 | as Method J with the K rate, draws and contest; the result is exactly the accepted states |
| Gen4Wild.GeneratePokeRadar | Source/Core/Gen4/Generators/WildGenerator4.cpp:382-506 | maxAdvances+1 radar attempts, each justified from its base seed; the result is exactly the accepted states, each of the chosen slot at maximum level, shiny when asked |
| Gen4Wild.Generate | Source/Core/Gen4/Generators/WildGenerator4.cpp:58-71 | dispatch on the method: J, K and the radar give exactly their accepted states; any other method gives no states; without wrap the advances increase strictly and lie in the window |
| Text.Split | Source/Form/Controls/IDsFilter.cpp:107 | at least one piece, none containing the separator, exactly one piece iff the separator is absent |
| Text.JoinSplit | Source/Form/Controls/IDsFilter.cpp:183 | joining the pieces of a split gives the text back |
| Text.SplitJoin | Source/Form/Controls/IDsFilter.cpp:183 | splitting a join of separator-free pieces gives the pieces back |
| Text.Keep | Source/Form/Controls/IDsFilter.cpp:110-113 | removing the complement of a character class leaves only allowed characters, no more than before, and every allowed character as many times as before |
| Text.KeepAppend | Source/Form/Controls/IDsFilter.cpp:113 | filtering works character by character: the kept text of a + b is a's followed by b's |
| Text.KeepAllowed | Source/Form/Controls/IDsFilter.cpp:113 | removing disallowed characters from a text without any changes nothing |
| Text.ValueOfDecimal | Source/Form/Controls/IDsFilter.cpp:119 | parsing the printed number gives the number back |
| Text.DecimalOfValue | Source/Form/Controls/IDsFilter.cpp:117-119 | printing the value of a numeral without leading zeros gives the numeral back |
| Text.ToUShort | Source/Form/Controls/IDsFilter.cpp:117 | the parse succeeds exactly on a non-empty digit string of value at most 65535, and then gives that value |
| Text.ToUInt | Source/Form/Controls/IDsFilter.cpp:83 | the parse succeeds exactly on a non-empty digit string of value at most 4294967295, and then gives that value |
| Text.ToUShortDecimal | Source/Form/Controls/IDsFilter.cpp:117-119 | a printed number parses back as a u16 exactly when it is at most 65535 |
| IdsFilter.IdLine | Source/Form/Controls/IDsFilter.cpp:113-120 | a TID/SID line becomes digits only, and is empty exactly when it had no digit |
| IdsFilter.TsvLine | Source/Form/Controls/IDsFilter.cpp:194-201 | a TSV line becomes digits only, and is empty exactly when it had no digit |
| IdsFilter.DisplayLineAsWritten | Source/Form/Controls/IDsFilter.cpp:128-134 | as written, a display line becomes digits only, and is empty exactly when it had no digit |
| IdsFilter.DisplayLine | Source/Form/Controls/IDsFilter.cpp:128-134 | corrected display line: digits only, empty exactly when it had no digit |
| IdsFilter.CombinedParts | Source/Form/Controls/IDsFilter.cpp:150-175 | the TID/SID rewrite after the slash loop is empty exactly when its input is |
| IdsFilter.KeepFirstSlash | Source/Form/Controls/IDsFilter.cpp:144-148 | keeping only the first slash never lengthens the text and keeps a slash exactly when there was one |
| IdsFilter.IdLineClamps | Source/Form/Controls/IDsFilter.cpp:108-122 | a TID/SID line is empty iff it has no digits, else prints the digits' value, or 65535 when it does not fit |
| IdsFilter.TsvLineClamps | Source/Form/Controls/IDsFilter.cpp:191-201 | a TSV line is empty iff it has no digits, else prints the value capped at 8191 |
| IdsFilter.DisplayLineAsWrittenLoses100000 | Source/Form/Controls/IDsFilter.cpp:132-133 | as written, the display TID 100000 becomes 999999 |
| IdsFilter.DisplayLineAsWrittenClamps | Source/Form/Controls/IDsFilter.cpp:123-137 | as written, a display line prints its value only when it fits 16 bits, else 999999 |
| IdsFilter.DisplayLineClamps | Source/Form/Controls/IDsFilter.cpp:123-137 | corrected display line: empty iff no digits, else the value capped at 999999 |
| IdsFilter.CombinedLineShape | Source/Form/Controls/IDsFilter.cpp:140-148 | a TID/SID line holds only digits and at most one slash, and is empty iff it had no digit or slash |
| IdsFilter.CombinedLinePair | Source/Form/Controls/IDsFilter.cpp:152-174 | `a/b` with b non-empty becomes both halves re-printed and clamped to 65535 |
| IdsFilter.CombinedLineTrailingSlash | Source/Form/Controls/IDsFilter.cpp:169 | `a/` with nothing after the slash is left unchanged |
| IdsFilter.KeepFirstSlashShape | Source/Form/Controls/IDsFilter.cpp:145-148 | dropping the later slashes leaves at most one slash, and one iff there was one |
| IdsFilter.DropExtraSlashes | Source/Form/Controls/IDsFilter.cpp:145-148 | the loop removing the last slash while there are two leaves the text with only its first slash |
| IdsFilter.NormalizeCombined | Source/Form/Controls/IDsFilter.cpp:140-175 | the combined-mode rewrite of one line equals `CombinedLine` |
| IdsFilter.NormalizeIdsLine | Source/Form/Controls/IDsFilter.cpp:108-176 | the loop body of the ID box rewrites one line as `IdsLine` does for the mode |
| IdsFilter.IdsLineIdempotent | Source/Form/Controls/IDsFilter.cpp:105-186 | rewriting a line twice is rewriting it once, in every mode |
| IdsFilter.IdsKeepLines | Source/Form/Controls/IDsFilter.cpp:105-186 | the ID box keeps its line count, line j becomes line j rewritten, and empty lines stay empty |
| IdsFilter.TsvKeepLines | Source/Form/Controls/IDsFilter.cpp:188-211 | the TSV box keeps its line count, line j becomes line j rewritten, and empty lines stay empty |
| IdsFilter.IdsIdempotent | Source/Form/Controls/IDsFilter.cpp:105-186 | rewriting the ID box again changes nothing |
| IdsFilter.TsvIdempotent | Source/Form/Controls/IDsFilter.cpp:188-211 | rewriting the TSV box again changes nothing |
| IdsFilter.Collect16 | Source/Form/Controls/IDsFilter.cpp:47-53 | the collecting loop appends one `toUShort` entry per non-empty line, in order, to what it was given |
| IdsFilter.Collect32 | Source/Form/Controls/IDsFilter.cpp:79-85 | the display loop gives one `toUInt` entry per non-empty line, in order |
| IdsFilter.CollectPairs | Source/Form/Controls/IDsFilter.cpp:65-76 | each non-empty combined line gives its TID part and SID part, in order |
| IdsFilter.IDsFilter.TextEditIDsTextChanged | Source/Form/Controls/IDsFilter.cpp:105-186 | the ID box becomes every line rewritten for the checked mode; the mode and the TSV box are unchanged |
| IdsFilter.IDsFilter.TextEditTSVTextChanged | Source/Form/Controls/IDsFilter.cpp:188-211 | the TSV box becomes every line rewritten; the mode and the ID box are unchanged |
| IdsFilter.IDsFilter.GetFilter | Source/Form/Controls/IDsFilter.cpp:37-98 | one entry per non-empty ID line in the checked mode's list(s), then one SID entry per non-empty TSV line; the TSV list stays empty |

## Left out

- The `occidentary` counter, passed by pointer to every draw, is left out. So is the `WildGeneratorState4` field that records it. It counts the game's extra RNG calls, and no property here depends on it.
- The generator constants come from `LCRNG.hpp`. That file is not part of this model beyond the step `s * 0x41C64E6D + 0x6073 mod 2^32` and the two bounded draw forms the search uses.
- `EncounterArea4::calculateLevel` is not part of this model. `Encounters.CalculateLevel` stands in for it: one draw of the level range for non-grass areas, the maximum level on grass. The Pressure flag is accepted and ignored.
- `EncounterSlot::jSlot` / `kSlot` and the three `WildStateFilter4` checks are not part of this model. They are function values, and the model assumes only that the slot tables give valid indices.
- Termination of the PID search and the shiny re-roll loops rests on the hypotheses `PidSearchTerminates`, `ShinySearchTerminates` and `RadarSearchTerminates`. Those say the generator's sequence eventually yields a match; they are not proved about the generator.
- Gen4Wild.GenerateMethodJ, GenerateMethodK and GeneratePokeRadar: `for (u32 cnt = 0; cnt <= maxAdvances; cnt++)` never ends when maxAdvances is 0xFFFFFFFF, because the u32 counter wraps. The model runs exactly maxAdvances+1 iterations.
- Gen4Wild.GeneratePokeRadar requires a valid slot `index`. The source reads the slot without checking the index.
- Gen4Wild.AdvanceRadar (and so RadarPlainAdvance, GeneratePokeRadar and Generate) builds the non-shiny Cute Charm PID with the corrected offset `RadarBuffer`, `25 * (gender / 25 + 1)`, not the `25 + (gender / 25 + 1)` of WildGenerator4.cpp:399. The as-written offset and what it breaks are `RadarBufferAsWritten` and `RadarBufferAsWrittenLosesNature`.
- Gen4Wild.RadarShinyAdvance does not pin the shiny path's IVs and item to draws of `go`. It states only the PID's relation to the rolls (`ShinyRadar`) and that the nature is the PID mod 25. When a re-roll happens, the PID is only stated to be shiny and to meet the lead's condition, not to be the first re-roll that does.
- IdsFilter.IDsFilter.TextEditIDsTextChanged (and so IdsLine, NormalizeIdsLine, NormalizedIds and the idempotence lemmas) rewrites display-TID lines with the corrected `DisplayLine`, which parses with `toUInt`. IDsFilter.cpp:132-133 parses with `toUShort`. The as-written line and its loss of "100000" are `DisplayLineAsWritten` and `DisplayLineAsWrittenLoses100000`.
- Gen4Wild.Generate states the full count of states (`maxAdvances + 1`) only for a filter that accepts everything and a search without a rate gate. Otherwise the count follows from the ghost attempts, which are stated exactly.
- IdsFilter.IDsFilter.GetFilter requires that every non-empty line holds a `/` in TID/SID mode. The source reads `ids[1]` unchecked, and its text rewrite keeps a slash-free line slash-free.
- Qt's `toUShort` / `toUInt` also accept surrounding whitespace and a sign. That does not matter here, because every rewritten line holds only digits (and one `/`) before it is parsed.
- The user interface is left out: the radio buttons, signal blocking, cursor save and restore, and `enableDisplayTID`. The text boxes are plain string fields.
- Gender, species data and items come from the personal-information tables, which are not part of this model.

## Findings

| source | as written | input that shows it | evidently intended | confidence | as-written member | corrected member |
|---|---|---|---|---|---|---|
| Source/Core/Gen4/Generators/WildGenerator4.cpp:399 | `buffer = 25 + ((gender / 25) + 1)` adds where Methods J and K multiply | gender ratio 127, nature 0: buffer 31, PID 31, and 31 mod 25 = 6, not 0 | `25 * ((gender / 25) + 1)`, so the Cute Charm PID `buffer + nature` keeps its nature | high, not executed | Gen4Wild.RadarBufferAsWrittenLosesNature | Gen4Wild.RadarBufferKeepsNature |
| Source/Form/Controls/IDsFilter.cpp:132-133 | a display TID is parsed with `toUShort` into a `u32`, then capped at 999999 | the line `100000` fails the 16-bit parse and becomes `999999` | `toUInt`, so display TIDs up to 999999 survive and the cap is what limits them | medium, not executed | IdsFilter.DisplayLineAsWrittenLoses100000 | IdsFilter.DisplayLineClamps |
