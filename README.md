# Magnetic-bead cleanup routines, modelled in Dafny

This project models `opentrons_functionsDEV/opentrons_functions/magbeadsDEV.py`, the
four routines a liquid-handling robot protocol uses for a magnetic-bead cleanup:

- `bead_mix` resuspends the beads in each column.
- `remove_supernatant` drains each column into a waste well, in chunks that fit one tip.
- `bead_wash` runs a wash cycle: remove supernatant, add wash buffer and, optionally,
  resuspend the beads and let them settle on the engaged magnet.
- `transfer_elute` moves the eluate of each column to a destination plate. It approaches
  each well from a side chosen by the column's parity.

Every routine works by issuing hardware commands one after another. The model is a
`Robot` class (`magbeads.dfy`) with one field, `trace`, the commands issued so far. Each
routine is a method whose loops issue the same commands as the source, in the same order
and under the same conditions. Each method is proved to append exactly the trace given by
a specification function. Those functions live in `routines.dfy` (`Sweep` of a per-column
`Block`) and `wash.dfy` (`WashTrace`).

The properties the routines promise are lemmas about those functions:

- chunk sizes, chunk count and total volume drained;
- the aspiration height policy;
- the air gap after every aspiration;
- one tip pick-up and one release per column, in column order;
- the fixed step order of a wash cycle;
- the lateral offset of the eluate aspiration;
- the optional mix after elution.

Modules:

- `Commands` (`commands.dfy`): the command vocabulary and opaque locations. It also holds
  a tip-lifecycle state machine (`Run`) and a per-kind filter over traces (`Filter`).
- `TransferPlan` (`transfer_plan.dfy`): the chunk plan of supernatant removal, as a
  function of the remaining volume.
- `Offset` (`offset.dfy`): the lateral offset `(-1) ** side * x_offset`.
- `Routines` (`routines.dfy`): the per-column blocks and sweeps of the three column
  routines, with their lemmas.
- `Wash` (`wash.dfy`): the wash cycle trace and its lemmas.
- `MagBeads` (`magbeads.dfy`): the `Robot` class and the four routines as methods.

Volumes and counts are unbounded `int`s. Heights, offsets and rates are exact `real`s.

Two behaviours of the code worth noting:

- The aspiration height is chosen from the volume left in the well *before* the chunk is
  taken (line 51). It is not chosen from the volume left after the chunk.
- The threshold of 190 µL is a constant. It does not depend on `tip_vol`.

## Model

| member | source | states |
|---|---|---|
| TransferPlan.PlanTotal | opentrons_functionsDEV/opentrons_functions/magbeadsDEV.py:46-60 | The chunks drained from one column add up to exactly `super_vol`, or to nothing when `super_vol` is not positive. |
| TransferPlan.PlanChunks | opentrons_functionsDEV/opentrons_functions/magbeadsDEV.py:49-50 | Every chunk is positive and at most `tip_vol - 10`. Every chunk except the last is exactly `tip_vol - 10`. |
| TransferPlan.PlanCount | opentrons_functionsDEV/opentrons_functions/magbeadsDEV.py:49-60 | The number of chunks is the ceiling of `super_vol / (tip_vol - 10)`: (n-1)·cap < v ≤ n·cap. It is zero when `super_vol` ≤ 0. |
| TransferPlan.PlanAt | opentrons_functionsDEV/opentrons_functions/magbeadsDEV.py:49-54 | Chunk j starts with v - j·cap left in the well. Its volume is min(v - j·cap, cap). Its height is `bottom_offset` exactly when that remaining volume is ≤ 190, and 4 otherwise. |
| TransferPlan.DefaultPlan | opentrons_functionsDEV/opentrons_functions/magbeadsDEV.py:37-60 | With the defaults (600 µL, 200 µL tips) the chunks are 190, 190, 190 at height 4 and then 30 at `bottom_offset`. |
| TransferPlan.FixedThreshold | opentrons_functionsDEV/opentrons_functions/magbeadsDEV.py:50-54 | With a tip larger than 200 µL, a volume above 190 and at most the chunk capacity `tip_vol - 10` is drained in a single chunk from height 4. The fixed threshold never selects `bottom_offset` for it. |
| Offset.NegOnePowParity | opentrons_functionsDEV/opentrons_functions/magbeadsDEV.py:200 | (-1) ** k is 1 for even k and -1 for odd k. |
| Offset.SideOffset | opentrons_functionsDEV/opentrons_functions/magbeadsDEV.py:199-200 | The offset `(-1) ** side * x_offset` is `x_offset` for an even side and `-x_offset` for an odd one. |
| Offset.SideOffsetCases | opentrons_functionsDEV/opentrons_functions/magbeadsDEV.py:199-200 | Parity 0 gives `+x_offset` and parity 1 gives `-x_offset`. The offset is always ±`x_offset`. |
| Routines.Work | opentrons_functionsDEV/opentrons_functions/magbeadsDEV.py:17-23 | The commands a routine issues while it holds a column's tip (`bead_mix` here, and likewise lines 55-62 of `remove_supernatant` and 208-215 of `transfer_elute`). Their number is fixed by the routine: 3 for a mix, 3 per chunk plus 1 for a removal, 2 or 4 for an elution. |
| Routines.DrainVolume | opentrons_functionsDEV/opentrons_functions/magbeadsDEV.py:55-59 | The commands of a drain aspirate exactly the total of the plan's chunks. |
| Routines.DrainAt | opentrons_functionsDEV/opentrons_functions/magbeadsDEV.py:55-59 | For chunk j, the drain issues at 3j the aspiration of that chunk at its height and rate, at 3j+1 the 10 µL air gap, and at 3j+2 the dispense of chunk+10 into `waste.top()`. |
| Routines.BlockTips | opentrons_functionsDEV/opentrons_functions/magbeadsDEV.py:16-28 | One column's block (of `bead_mix` here, and likewise of lines 48-66 and 207-219) picks up exactly one tip, from the column's own rack position. It releases that tip exactly once, and the release is the chosen drop or return. |
| Routines.SweepTips | opentrons_functionsDEV/opentrons_functions/magbeadsDEV.py:15-219 | In each of the three column routines (lines 15-28, 45-66 and 197-219), each tip taken is released before the next is taken, and no liquid command runs without a tip. The i-th pick-up is from `tiprack[cols[i]]`, so columns go in the given order. There is exactly one release per column, and it is `drop_tip()` exactly when `drop_tip` is true and `return_tip()` otherwise (lines 25-28, 63-66, 216-219). |
| Routines.BeadMixColumn | opentrons_functionsDEV/opentrons_functions/magbeadsDEV.py:15-28 | For column i, `bead_mix` issues, in this order: pick-up from `tiprack[col]`, mix `n` × `mix_vol` at `bottom(z_offset)`, dispense `mix_vol` at `bottom(z_offset + mix_lift)`, blow-out at the top, release. |
| Routines.BeadMixNoAspirate | opentrons_functionsDEV/opentrons_functions/magbeadsDEV.py:15-28 | `bead_mix` never aspirates. It never calls the buffer routine, the magnet or the timer. |
| Routines.SupernatantColumn | opentrons_functionsDEV/opentrons_functions/magbeadsDEV.py:45-66 | Layout of one column of supernatant removal: the pick-up, then for every chunk its aspiration, air gap and waste dispense, then the blow-out where the pipette is, then the release. |
| Routines.SupernatantAirGaps | opentrons_functionsDEV/opentrons_functions/magbeadsDEV.py:55-59 | Every aspiration of supernatant is followed at once by `AirGap(10)` and then by `Dispense(chunk + 10, waste.top())`. |
| Routines.SupernatantVolume | opentrons_functionsDEV/opentrons_functions/magbeadsDEV.py:45-62 | Each column has exactly `super_vol` aspirated from it, or nothing when `super_vol` ≤ 0. The whole removal aspirates `len(cols)` times that. |
| Routines.SupernatantNothingToRemove | opentrons_functionsDEV/opentrons_functions/magbeadsDEV.py:48-66 | When `super_vol` ≤ 0 there is no aspiration, air gap or dispense. Each column still gets its pick-up, a blow-out and one release. |
| Routines.SupernatantOnlyDrains | opentrons_functionsDEV/opentrons_functions/magbeadsDEV.py:45-67 | Supernatant removal never mixes. It never calls the buffer routine, the magnet or the timer. |
| Routines.EluteColumn | opentrons_functionsDEV/opentrons_functions/magbeadsDEV.py:197-219 | For column i, `transfer_elute` issues: pick-up, aspirate `vol` at the well bottom shifted by +`x_offset` (even parity) or -`x_offset` (odd parity), dispense `vol` into `dest[col]`, mix and blow-out only when `mix_n` is given, release. |
| Routines.EluteVolumes | opentrons_functionsDEV/opentrons_functions/magbeadsDEV.py:199-209 | Every aspiration and dispense of `transfer_elute` moves `vol`. Every aspiration is shifted sideways by exactly `x_offset` in size. |
| Routines.EluteOptionalMix | opentrons_functionsDEV/opentrons_functions/magbeadsDEV.py:211-215 | `transfer_elute` mixes and blows out once per column when `mix_n` is given, and never otherwise. |
| Commands.TiplessWithTipFails | opentrons_functionsDEV/opentrons_functions/magbeadsDEV.py:128-179 | A disengage, an engage, a buffer addition or a delay issued while a tip is held, after any prefix and before any suffix, breaks the tip lifecycle, so a lifecycle-correct wash runs them with the pipette empty. |
| Wash.WashTips | opentrons_functionsDEV/opentrons_functions/magbeadsDEV.py:117-179 | A wash cycle pairs every tip pick-up with a release. The buffer routine, the magnet and the delay all run with no tip held. |
| Wash.WashWithoutResuspend | opentrons_functionsDEV/opentrons_functions/magbeadsDEV.py:117-179 | Without `resuspend_beads`, a wash is supernatant removal followed by the buffer addition. It has no disengage, engage, delay or mix. |
| Wash.WashResuspendOrder | opentrons_functionsDEV/opentrons_functions/magbeadsDEV.py:117-179 | With `resuspend_beads`, the steps are, in order: all of supernatant removal, disengage, buffer addition, all of the bead mix, engage (with `mag_engage_height` when given), `delay(pause_s)` last. |
| Wash.WashResuspendEvents | opentrons_functionsDEV/opentrons_functions/magbeadsDEV.py:128-179 | With `resuspend_beads`, the magnet moves exactly twice: disengage, then engage. There is exactly one buffer addition and one delay. |
| Wash.WashResuspendPlacement | opentrons_functionsDEV/opentrons_functions/magbeadsDEV.py:117-179 | With `resuspend_beads`, every aspiration comes before the disengage. Every mix comes after the buffer addition and before the engage. |
| MagBeads.Robot.BeadMix | opentrons_functionsDEV/opentrons_functions/magbeadsDEV.py:6-29 | The `for` loop appends exactly the bead-mix sweep over `cols`, with the source's default arguments. |
| MagBeads.Robot.MixColumn | opentrons_functionsDEV/opentrons_functions/magbeadsDEV.py:16-28 | One iteration of the bead-mix loop appends exactly that column's block. |
| MagBeads.Robot.RemoveSupernatant | opentrons_functionsDEV/opentrons_functions/magbeadsDEV.py:32-67 | The `for` loop appends exactly the supernatant-removal sweep over `cols`, with the default arguments. It requires `tip_vol > 10` unless there is nothing to remove. |
| MagBeads.Robot.RemoveFromColumn | opentrons_functionsDEV/opentrons_functions/magbeadsDEV.py:46-66 | One column: pick-up, the whole drain of `super_vol`, blow-out and release. |
| MagBeads.Robot.DrainWell | opentrons_functionsDEV/opentrons_functions/magbeadsDEV.py:49-60 | The `while` loop issues exactly the drain of the chunk plan for `super_vol`, and it terminates (variant `vol_remaining`). It leaves `vol_remaining` at exactly 0 when `super_vol` > 0, never below it. When `super_vol` ≤ 0 the loop does not run and the returned `vol_remaining` equals `super_vol`. |
| MagBeads.Robot.BeadWash | opentrons_functionsDEV/opentrons_functions/magbeadsDEV.py:70-181 | The cycle appends exactly the wash trace, which forwards the wash's removal and mix arguments to the two routines. It returns exactly the pair the buffer routine returned. |
| MagBeads.Robot.Resuspend | opentrons_functionsDEV/opentrons_functions/magbeadsDEV.py:163-179 | The resuspension tail appends the bead mix, the engage (carrying the height exactly when one is given) and the delay. |
| MagBeads.Robot.TransferElute | opentrons_functionsDEV/opentrons_functions/magbeadsDEV.py:184-219 | The `for` loop appends exactly the eluate-transfer sweep over `cols`. The tip is dropped by default. |
| MagBeads.Robot.TransferOne | opentrons_functionsDEV/opentrons_functions/magbeadsDEV.py:198-219 | One iteration of the eluate loop appends exactly that column's block, with the offset location computed as in the source. |

## Left out

- Physical semantics are not modelled. Pipette motion, liquid physics, the magnetic module and the protocol's clock are abstract trace events only.
- `add_buffer`, imported at magbeadsDEV.py:2, is not part of this model. `BeadWash` takes it as a function parameter from its arguments to the (wells, remaining) pair. Its commands are one opaque `AddBuffer` event that starts and ends with no tip held. Source-well depletion is not modelled.
- `odd_or_even`, imported at magbeadsDEV.py:3, is not part of this model. `TransferElute` takes it as a function parameter. For a negative parity the model uses |side|: Python's `(-1) ** side` equals `(-1) ** -side` there.
- Labware geometry is not modelled. Well lookup, `.bottom()`, `.top()` and `.move(Point(...))` are opaque location constructors.
- Floating-point arithmetic is not modelled. Heights, offsets and rates are exact reals, and `z_offset + mix_lift` is an exact sum.
- The `pipette` argument, the `magblock` and the `protocol` objects are one `Robot` whose trace records all their commands in issue order.
- Lines 127-179 of the source mix tabs and spaces, which Python 3 rejects at parse time. The model follows the evident intent: `if resuspend_beads` guards the disengage, a second `if resuspend_beads` guards the mix, the engage and the delay, and the buffer addition and the return are unconditional.
- MagBeads.Robot.RemoveSupernatant: requires `tip_vol > 10` unless `super_vol` ≤ 0. Without it the source's `while` loop never ends, so that case is not modelled.
- MagBeads.Robot.BeadWash: the same requirement, on `super_tip_vol`.
- No capacity or rack-exhaustion checks are modelled, because the source performs none.
