/**
 * The four bead-cleanup routines, issuing their commands one by one to the
 * robot. The pipette, the magnetic module and the protocol timer are one
 * `Robot` whose `trace` records every command in the order it is issued.
 * Each routine is proved to issue exactly what its specification in
 * `Routines` or `Wash` says.
 */
module MagBeads {
  import opened Commands
  import opened TransferPlan
  import opened Offset
  import opened Routines
  import opened Wash

  /** One pass of the drain loop keeps "issued + still to issue" unchanged. */
  lemma DrainProgress(p: SuperParams, col: Col, v: int, cap: int, bo: real,
                      prev: seq<Command>, next: seq<Command>)
    requires v > 0 && cap > 0
    requires next == prev + DrainStep(p, col, Chunk(Min(v, cap), Height(v, bo)))
    ensures next + Drain(p, col, Plan(v - Min(v, cap), cap, bo)) == prev + Drain(p, col, Plan(v, cap, bo))
  {
    DrainHead(p, col, v, cap, bo);
  }

  class Robot {
    /** Every command issued so far, oldest first. */
    var trace: seq<Command>

    constructor ()
      ensures trace == []
    {
      trace := [];
    }

    /** Hand one command to the hardware. */
    method Issue(c: Command)
      modifies this
      ensures trace == old(trace) + [c]
    {
      trace := trace + [c];
    }

    /** For each column: pick up its tip, mix `n` times at `z_offset` above
        the bottom, dispense `mix_lift` higher, blow out at the top, then
        drop or return the tip. */
    method BeadMix(plate: LabwareId, cols: seq<Col>, tiprack: LabwareId,
                   n: int := 5, zOffset: real := 2.0, mixVol: int := 200,
                   mixLift: real := 0.0, dropTip: bool := false)
      modifies this
      ensures trace == old(trace) + Sweep(Mixing(MixParams(plate, tiprack, n, zOffset, mixVol, mixLift, dropTip)), cols)
    {
      ghost var r := Mixing(MixParams(plate, tiprack, n, zOffset, mixVol, mixLift, dropTip));
      for i := 0 to |cols|
        invariant trace == old(trace) + Sweep(r, cols[..i])
      {
        MixColumn(plate, cols[i], tiprack, n, zOffset, mixVol, mixLift, dropTip);
        SweepSnoc(r, cols, i);
      }
      assert cols[..|cols|] == cols;
    }

    /** The body of `BeadMix` for one column. */
    method MixColumn(plate: LabwareId, col: Col, tiprack: LabwareId,
                     n: int, zOffset: real, mixVol: int, mixLift: real, dropTip: bool)
      modifies this
      ensures trace == old(trace) + Block(Mixing(MixParams(plate, tiprack, n, zOffset, mixVol, mixLift, dropTip)), col)
    {
      Issue(PickUp(tiprack, col));
      Issue(Mix(n, Some(mixVol), Bottom(plate, col, zOffset)));
      Issue(Dispense(mixVol, Bottom(plate, col, zOffset + mixLift)));
      Issue(BlowOut(Some(Top(plate, col))));
      if dropTip {
        Issue(DropTip);
      } else {
        Issue(ReturnTip);
      }
      assert trace == old(trace) + [PickUp(tiprack, col), Mix(n, Some(mixVol), Bottom(plate, col, zOffset)),
                                    Dispense(mixVol, Bottom(plate, col, zOffset + mixLift)),
                                    BlowOut(Some(Top(plate, col))), Release(dropTip)];
    }

    /** For each column: pick up its tip and drain `super_vol` into the waste
        in chunks of at most tip_vol - 10, each followed by a 10 µL air gap
        that is dispensed with it; then blow out and drop or return the tip. */
    method RemoveSupernatant(plate: LabwareId, cols: seq<Col>, tiprack: LabwareId, waste: WellRef,
                             superVol: int := 600, tipVol: int := 200, rate: real := 0.25,
                             bottomOffset: real := 2.0, dropTip: bool := false)
      requires tipVol > TipReserve || superVol <= 0
      modifies this
      ensures trace == old(trace) +
        Sweep(Removal(SuperParams(plate, tiprack, waste, superVol, tipVol, rate, bottomOffset, dropTip)), cols)
    {
      ghost var r := Removal(SuperParams(plate, tiprack, waste, superVol, tipVol, rate, bottomOffset, dropTip));
      for i := 0 to |cols|
        invariant trace == old(trace) + Sweep(r, cols[..i])
      {
        RemoveFromColumn(plate, cols[i], tiprack, waste, superVol, tipVol, rate, bottomOffset, dropTip);
        SweepSnoc(r, cols, i);
      }
      assert cols[..|cols|] == cols;
    }

    /** The body of `RemoveSupernatant` for one column. */
    method RemoveFromColumn(plate: LabwareId, col: Col, tiprack: LabwareId, waste: WellRef,
                            superVol: int, tipVol: int, rate: real, bottomOffset: real, dropTip: bool)
      requires tipVol > TipReserve || superVol <= 0
      modifies this
      ensures trace == old(trace) +
        Block(Removal(SuperParams(plate, tiprack, waste, superVol, tipVol, rate, bottomOffset, dropTip)), col)
    {
      ghost var p := SuperParams(plate, tiprack, waste, superVol, tipVol, rate, bottomOffset, dropTip);
      ghost var drain := Drain(p, col, p.Chunks());
      Issue(PickUp(tiprack, col));
      var volRemaining := DrainWell(plate, col, tiprack, waste, superVol, tipVol, rate, bottomOffset, dropTip);
      assert superVol > 0 ==> volRemaining == 0;
      Issue(BlowOut(None));
      if dropTip {
        Issue(DropTip);
      } else {
        Issue(ReturnTip);
      }
      assert trace == old(trace) + ([PickUp(tiprack, col)] + (drain + [BlowOut(None)]) + [Release(dropTip)]);
    }

    /** The drain loop of `RemoveSupernatant`: aspirate chunk after chunk,
        each with its air gap, and empty it into the waste. */
    method DrainWell(plate: LabwareId, col: Col, ghost tiprack: LabwareId, waste: WellRef,
                     superVol: int, tipVol: int, rate: real, bottomOffset: real, ghost dropTip: bool)
      returns (volRemaining: int)
      requires tipVol > TipReserve || superVol <= 0
      modifies this
      ensures volRemaining == if superVol > 0 then 0 else superVol
      ensures trace == old(trace) +
        Drain(SuperParams(plate, tiprack, waste, superVol, tipVol, rate, bottomOffset, dropTip), col,
              Plan(superVol, tipVol - TipReserve, bottomOffset))
    {
      ghost var p := SuperParams(plate, tiprack, waste, superVol, tipVol, rate, bottomOffset, dropTip);
      volRemaining := superVol;
      while volRemaining > 0
        invariant if superVol > 0 then 0 <= volRemaining else volRemaining == superVol
        invariant trace + Drain(p, col, Plan(volRemaining, tipVol - TipReserve, bottomOffset)) ==
                  old(trace) + Drain(p, col, Plan(superVol, tipVol - TipReserve, bottomOffset))
        decreases volRemaining
      {
        var transferVol := Min(volRemaining, tipVol - TipReserve);
        var zHeight: real;
        if volRemaining <= LowVolumeThreshold {
          zHeight := bottomOffset;
        } else {
          zHeight := DefaultHeight;
        }
        ghost var prev := trace;
        Issue(Aspirate(transferVol, Bottom(plate, col, zHeight), rate));
        Issue(AirGap(AirGapVolume));
        Issue(Dispense(transferVol + AirGapVolume, WasteTop(waste)));
        assert trace == prev + DrainStep(p, col, Chunk(transferVol, zHeight));
        assert zHeight == Height(volRemaining, bottomOffset);
        DrainProgress(p, col, volRemaining, tipVol - TipReserve, bottomOffset, prev, trace);
        volRemaining := volRemaining - transferVol;
      }
      assert Drain(p, col, Plan(volRemaining, tipVol - TipReserve, bottomOffset)) == [];
    }

    /**
     * One wash cycle. `addBuffer` stands for the external buffer-dispensing
     * routine: its commands are one `AddBuffer` event and its result is
     * handed back unchanged to the caller.
     */
    method BeadWash(addBuffer: BufferCall -> BufferResult,
                    plate: LabwareId, cols: seq<Col>,
                    superWaste: WellRef, superTiprack: LabwareId,
                    sourceWells: seq<WellRef>, sourceVol: int,
                    mixTiprack: LabwareId,
                    resuspendBeads: bool := true, superVol: int := 600, rate: real := 0.25,
                    superBottomOffset: real := 2.0, superTipVol: int := 200, dropSuperTip: bool := true,
                    washVol: int := 300, remaining: Option<int> := None, washTip: Option<WellRef> := None,
                    washTipVol: int := 300, dropWashTip: bool := true, touchWashTip: bool := true,
                    mixVol: int := 200, mixN: int := 10, mixZOffset: real := 2.0, mixLift: real := 0.0,
                    dropMixTip: bool := false, magEngageHeight: Option<real> := None, pauseS: int := 300)
      returns (washWells: seq<WellRef>, washRemaining: int)
      requires superTipVol > TipReserve || superVol <= 0
      modifies this
      ensures BufferResult(washWells, washRemaining) ==
        addBuffer(BufferCall(sourceWells, plate, cols, washVol, sourceVol, washTip, washTipVol, remaining, dropWashTip, touchWashTip))
      ensures trace == old(trace) + WashTrace(
        SuperParams(plate, superTiprack, superWaste, superVol, superTipVol, rate, superBottomOffset, dropSuperTip),
        BufferCall(sourceWells, plate, cols, washVol, sourceVol, washTip, washTipVol, remaining, dropWashTip, touchWashTip),
        MixParams(plate, mixTiprack, mixN, mixZOffset, mixVol, mixLift, dropMixTip),
        cols, resuspendBeads, magEngageHeight, pauseS)
    {
      ghost var removal := Sweep(Removal(SuperParams(plate, superTiprack, superWaste, superVol, superTipVol, rate,
                                                     superBottomOffset, dropSuperTip)), cols);
      ghost var mixing := Sweep(Mixing(MixParams(plate, mixTiprack, mixN, mixZOffset, mixVol, mixLift, dropMixTip)), cols);
      RemoveSupernatant(plate, cols, superTiprack, superWaste,
                        tipVol := superTipVol, superVol := superVol, rate := rate,
                        bottomOffset := superBottomOffset, dropTip := dropSuperTip);
      if resuspendBeads {
        Issue(Disengage);
      }
      var call := BufferCall(sourceWells, plate, cols, washVol, sourceVol, washTip, washTipVol,
                             remaining, dropWashTip, touchWashTip);
      Issue(AddBuffer(call));
      var result := addBuffer(call);
      washWells, washRemaining := result.wells, result.remaining;
      if resuspendBeads {
        Resuspend(plate, cols, mixTiprack, mixVol, mixN, mixZOffset, mixLift, dropMixTip, magEngageHeight, pauseS);
        assert trace == old(trace) + (removal + [Disengage] + [AddBuffer(call)] +
                                      (mixing + [Engage(magEngageHeight), Delay(pauseS)]));
      } else {
        assert trace == old(trace) + (removal + [] + [AddBuffer(call)] + []);
      }
    }

    /** The resuspension tail of a wash: mix the beads back up, engage the
        magnet (at the given height or the default one) and wait. */
    method Resuspend(plate: LabwareId, cols: seq<Col>, mixTiprack: LabwareId,
                     mixVol: int, mixN: int, mixZOffset: real, mixLift: real, dropMixTip: bool,
                     magEngageHeight: Option<real>, pauseS: int)
      modifies this
      ensures trace == old(trace) +
        Sweep(Mixing(MixParams(plate, mixTiprack, mixN, mixZOffset, mixVol, mixLift, dropMixTip)), cols) +
        [Engage(magEngageHeight), Delay(pauseS)]
    {
      BeadMix(plate, cols, mixTiprack, n := mixN, mixVol := mixVol, dropTip := dropMixTip,
              zOffset := mixZOffset, mixLift := mixLift);
      if magEngageHeight.Some? {
        Issue(Engage(Some(magEngageHeight.value)));
      } else {
        Issue(Engage(None));
      }
      Issue(Delay(pauseS));
    }

    /**
     * For each column: pick up its tip, aspirate `vol` from the well bottom
     * shifted sideways by (-1) ** odd_or_even(col) * x_offset, dispense it
     * into the destination well, mix and blow out only when `mixN` is
     * given, then drop or return the tip. `oddOrEven` stands for the
     * external parity helper.
     */
    method TransferElute(oddOrEven: Col -> int, source: LabwareId, dest: LabwareId, cols: seq<Col>,
                         tiprack: LabwareId, vol: int, zOffset: real := 0.5, xOffset: real := 1.0,
                         rate: real := 0.25, dropTip: bool := true,
                         mixN: Option<int> := None, mixVol: Option<int> := None)
      modifies this
      ensures trace == old(trace) +
        Sweep(Elution(EluteParams(source, dest, tiprack, vol, zOffset, xOffset, rate, dropTip, mixN, mixVol, oddOrEven)), cols)
    {
      ghost var r := Elution(EluteParams(source, dest, tiprack, vol, zOffset, xOffset, rate, dropTip, mixN, mixVol, oddOrEven));
      for i := 0 to |cols|
        invariant trace == old(trace) + Sweep(r, cols[..i])
      {
        TransferOne(oddOrEven, source, dest, cols[i], tiprack, vol, zOffset, xOffset, rate, dropTip, mixN, mixVol);
        SweepSnoc(r, cols, i);
      }
      assert cols[..|cols|] == cols;
    }

    /** The body of `TransferElute` for one column. */
    method TransferOne(oddOrEven: Col -> int, source: LabwareId, dest: LabwareId, col: Col,
                       tiprack: LabwareId, vol: int, zOffset: real, xOffset: real,
                       rate: real, dropTip: bool, mixN: Option<int>, mixVol: Option<int>)
      modifies this
      ensures trace == old(trace) +
        Block(Elution(EluteParams(source, dest, tiprack, vol, zOffset, xOffset, rate, dropTip, mixN, mixVol, oddOrEven)), col)
    {
      var side := oddOrEven(col);
      var offset := SideOffset(side, xOffset);
      var centerLoc := Bottom(source, col, zOffset);
      var offsetLoc := Shifted(centerLoc, offset);
      Issue(PickUp(tiprack, col));
      Issue(Aspirate(vol, offsetLoc, rate));
      Issue(Dispense(vol, WellOf(dest, col)));
      ghost var head := [PickUp(tiprack, col), Aspirate(vol, offsetLoc, rate), Dispense(vol, WellOf(dest, col))];
      assert trace == old(trace) + head;
      ghost var mixing: seq<Command> := [];
      if mixN.Some? {
        Issue(Mix(mixN.value, mixVol, Bottom(dest, col, 1.0)));
        Issue(BlowOut(Some(Top(dest, col))));
        mixing := [Mix(mixN.value, mixVol, Bottom(dest, col, 1.0)), BlowOut(Some(Top(dest, col)))];
      }
      assert trace == old(trace) + head + mixing;
      if dropTip {
        Issue(DropTip);
      } else {
        Issue(ReturnTip);
      }
      assert Block(Elution(EluteParams(source, dest, tiprack, vol, zOffset, xOffset, rate, dropTip, mixN, mixVol, oddOrEven)), col)
        == head + mixing + [Release(dropTip)];
    }
  }
}
