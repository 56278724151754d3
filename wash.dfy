/**
 * One wash cycle: remove the supernatant, then (only when the beads are to be
 * resuspended) release the magnet, add wash buffer, and (again only when
 * resuspending) mix the beads back up, engage the magnet and wait for the
 * beads to settle.
 */
module Wash {
  import opened Commands
  import opened Routines

  /** Everything one wash cycle issues, in order. */
  function WashTrace(sp: SuperParams, call: BufferCall, mp: MixParams, cols: seq<Col>,
                     resuspend: bool, engageHeight: Option<real>, pauseS: int): seq<Command>
    requires sp.Terminates()
  {
    Sweep(Removal(sp), cols)
    + (if resuspend then [Disengage] else [])
    + [AddBuffer(call)]
    + (if resuspend then Sweep(Mixing(mp), cols) + [Engage(engageHeight), Delay(pauseS)] else [])
  }

  /** A wash cycle takes and releases its tips properly: the buffer routine and
      the magnet and timer commands all happen with no tip on the pipette. */
  lemma WashTips(sp: SuperParams, call: BufferCall, mp: MixParams, cols: seq<Col>,
                 resuspend: bool, engageHeight: Option<real>, pauseS: int)
    requires sp.Terminates()
    ensures TipsPaired(WashTrace(sp, call, mp, cols, resuspend, engageHeight, pauseS))
  {
    var removal := Sweep(Removal(sp), cols);
    assert Run(false, removal) == Some(false) by { SweepTips(Removal(sp), cols); }
    if resuspend {
      var mixing := Sweep(Mixing(mp), cols);
      var released: seq<Command> := [Disengage, AddBuffer(call)];
      var settle: seq<Command> := [Engage(engageHeight), Delay(pauseS)];
      assert Run(false, mixing) == Some(false) by { SweepTips(Mixing(mp), cols); }
      RunTipless(released);
      RunTipless(settle);
      RunAppend(false, mixing, settle, false);
      RunAppend(false, released, mixing + settle, false);
      RunAppend(false, removal, released + (mixing + settle), false);
      assert WashTrace(sp, call, mp, cols, resuspend, engageHeight, pauseS) == removal + (released + (mixing + settle));
    } else {
      var buffer: seq<Command> := [AddBuffer(call)];
      RunTipless(buffer);
      RunAppend(false, removal, buffer, false);
      assert WashTrace(sp, call, mp, cols, resuspend, engageHeight, pauseS) == removal + buffer;
    }
  }

  /** Without resuspension the cycle is supernatant removal followed by the
      buffer addition: no magnet command, no delay and no mixing. */
  lemma WashWithoutResuspend(sp: SuperParams, call: BufferCall, mp: MixParams, cols: seq<Col>,
                             engageHeight: Option<real>, pauseS: int)
    requires sp.Terminates()
    ensures var t := WashTrace(sp, call, mp, cols, false, engageHeight, pauseS);
      |t| > 0 && t[|t| - 1] == AddBuffer(call) && t[..|t| - 1] == Sweep(Removal(sp), cols) &&
      forall k :: 0 <= k < |t| ==> !t[k].Disengage? && !t[k].Engage? && !t[k].Delay? && !t[k].Mix?
  {
    var t := WashTrace(sp, call, mp, cols, false, engageHeight, pauseS);
    var removal := Sweep(Removal(sp), cols);
    assert t == removal + [AddBuffer(call)];
    forall k | 0 <= k < |t| ensures !t[k].Disengage? && !t[k].Engage? && !t[k].Delay? && !t[k].Mix? {
      if k < |removal| {
        SupernatantOnlyDrains(sp, cols, k);
      }
    }
  }

  /** With resuspension the steps come in this order: all of supernatant
      removal, the disengage, the buffer addition, all of the bead mix, the
      engage (at the given height, or the default one) and the delay last. */
  lemma WashResuspendOrder(sp: SuperParams, call: BufferCall, mp: MixParams, cols: seq<Col>,
                           engageHeight: Option<real>, pauseS: int)
    requires sp.Terminates()
    ensures var t := WashTrace(sp, call, mp, cols, true, engageHeight, pauseS);
      var s := |Sweep(Removal(sp), cols)|; var m := |Sweep(Mixing(mp), cols)|;
      |t| == s + m + 4 &&
      t[..s] == Sweep(Removal(sp), cols) &&
      t[s] == Disengage &&
      t[s + 1] == AddBuffer(call) &&
      t[s + 2..s + 2 + m] == Sweep(Mixing(mp), cols) &&
      t[s + 2 + m] == Engage(engageHeight) &&
      t[s + 3 + m] == Delay(pauseS)
  {
    var removal := Sweep(Removal(sp), cols);
    var mixing := Sweep(Mixing(mp), cols);
    var t := WashTrace(sp, call, mp, cols, true, engageHeight, pauseS);
    assert t == removal + [Disengage, AddBuffer(call)] + mixing + [Engage(engageHeight), Delay(pauseS)];
  }

  /** With resuspension the magnet is moved exactly twice, disengaged then
      engaged, and there is one buffer addition and one delay. */
  lemma WashResuspendEvents(sp: SuperParams, call: BufferCall, mp: MixParams, cols: seq<Col>,
                            engageHeight: Option<real>, pauseS: int)
    requires sp.Terminates()
    ensures var t := WashTrace(sp, call, mp, cols, true, engageHeight, pauseS);
      Filter(t, MagnetMoves) == [Disengage, Engage(engageHeight)] &&
      Filter(t, Timers) == [Delay(pauseS)] &&
      Filter(t, BufferAdds) == [AddBuffer(call)]
  {
    var mid: seq<Command> := [Disengage, AddBuffer(call)];
    var last: seq<Command> := [Engage(engageHeight), Delay(pauseS)];
    assert mid[..1] == [Disengage] && mid[..1][..0] == [] && last[..1] == [Engage(engageHeight)] && last[..1][..0] == [];
    WashFilter(sp, call, mp, cols, engageHeight, pauseS, MagnetMoves);
    WashFilter(sp, call, mp, cols, engageHeight, pauseS, Timers);
    WashFilter(sp, call, mp, cols, engageHeight, pauseS, BufferAdds);
  }

  /** Only the commands between the sweeps and after them are magnet, timer
      or buffer commands. */
  lemma WashFilter(sp: SuperParams, call: BufferCall, mp: MixParams, cols: seq<Col>,
                   engageHeight: Option<real>, pauseS: int, kind: Kind)
    requires sp.Terminates()
    requires kind == MagnetMoves || kind == Timers || kind == BufferAdds
    ensures Filter(WashTrace(sp, call, mp, cols, true, engageHeight, pauseS), kind) ==
      Filter([Disengage, AddBuffer(call)], kind) + Filter([Engage(engageHeight), Delay(pauseS)], kind)
  {
    var removal := Sweep(Removal(sp), cols);
    var mixing := Sweep(Mixing(mp), cols);
    var mid: seq<Command> := [Disengage, AddBuffer(call)];
    var last: seq<Command> := [Engage(engageHeight), Delay(pauseS)];
    assert WashTrace(sp, call, mp, cols, true, engageHeight, pauseS) == removal + mid + mixing + last;
    forall k | 0 <= k < |removal| ensures !IsKind(removal[k], kind) {
      SupernatantOnlyDrains(sp, cols, k);
    }
    forall k | 0 <= k < |mixing| ensures !IsKind(mixing[k], kind) {
      BeadMixNoAspirate(mp, cols, k);
    }
    FourFilters(removal, mid, mixing, last, kind);
  }

  /** With resuspension every aspiration comes before the disengage and every
      mix comes after the buffer addition and before the engage. */
  lemma WashResuspendPlacement(sp: SuperParams, call: BufferCall, mp: MixParams, cols: seq<Col>,
                               engageHeight: Option<real>, pauseS: int)
    requires sp.Terminates()
    ensures var t := WashTrace(sp, call, mp, cols, true, engageHeight, pauseS);
      var s := |Sweep(Removal(sp), cols)|;
      (forall k :: 0 <= k < |t| && t[k].Aspirate? ==> k < s) &&
      (forall k :: 0 <= k < |t| && t[k].Mix? ==> s + 1 < k < |t| - 2)
  {
    var removal := Sweep(Removal(sp), cols);
    var mixing := Sweep(Mixing(mp), cols);
    var t := WashTrace(sp, call, mp, cols, true, engageHeight, pauseS);
    assert t == removal + [Disengage, AddBuffer(call)] + mixing + [Engage(engageHeight), Delay(pauseS)];
    forall k | 0 <= k < |t| && t[k].Aspirate? ensures k < |removal| {
      if k >= |removal| + 2 && k < |removal| + 2 + |mixing| {
        assert t[k] == mixing[k - |removal| - 2];
        BeadMixNoAspirate(mp, cols, k - |removal| - 2);
      }
    }
    forall k | 0 <= k < |t| && t[k].Mix? ensures |removal| + 1 < k < |t| - 2 {
      if k < |removal| {
        assert t[k] == removal[k];
        SupernatantOnlyDrains(sp, cols, k);
      }
    }
  }

  lemma FourFilters(a: seq<Command>, b: seq<Command>, c: seq<Command>, d: seq<Command>, kind: Kind)
    requires forall k :: 0 <= k < |a| ==> !IsKind(a[k], kind)
    requires forall k :: 0 <= k < |c| ==> !IsKind(c[k], kind)
    ensures Filter(a + b + c + d, kind) == Filter(b, kind) + Filter(d, kind)
  {
    var ab := a + b;
    var abc := ab + c;
    FilterNone(a, kind);
    FilterNone(c, kind);
    FilterAppend(a, b, kind);
    assert Filter(ab, kind) == Filter(b, kind);
    FilterAppend(ab, c, kind);
    assert Filter(abc, kind) == Filter(b, kind);
    FilterAppend(abc, d, kind);
  }
}
