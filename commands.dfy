/**
 * The abstract command vocabulary of the liquid-handling robot: where a
 * pipette can go, the commands the pipette, the magnetic module and the run
 * timer accept, and a tip-lifecycle state machine over a command trace.
 */
module Commands {

  datatype Option<T> = None | Some(value: T)

  /** A column (or well) name such as "A1". */
  type Col = string

  /** An opaque handle on a plate, reservoir or tip rack. */
  datatype LabwareId = LabwareId(name: string)

  /** An opaque handle on one well, e.g. a waste well or a buffer source well. */
  datatype WellRef = WellRef(labware: LabwareId, well: string)

  /** Pipette targets. Geometry is not interpreted: a location is a name. */
  datatype Location =
    | Bottom(labware: LabwareId, col: Col, z: real)  // labware[col].bottom(z)
    | Top(labware: LabwareId, col: Col)              // labware[col].top()
    | WellOf(labware: LabwareId, col: Col)           // labware[col]
    | WasteTop(waste: WellRef)                       // waste.top()
    | Shifted(from: Location, dx: real)              // from.move(Point(x = dx, y = 0, z = 0))

  /** The arguments handed to the external buffer-dispensing routine. */
  datatype BufferCall = BufferCall(
    sourceWells: seq<WellRef>, plate: LabwareId, cols: seq<Col>,
    washVol: int, sourceVol: int, tip: Option<WellRef>, tipVol: int,
    remaining: Option<int>, dropTip: bool, touchTip: bool)

  /** What the buffer-dispensing routine hands back: the source wells still
      usable and the volume left in the active one. */
  datatype BufferResult = BufferResult(wells: seq<WellRef>, remaining: int)

  datatype Command =
    | PickUp(rack: LabwareId, col: Col)
    | Aspirate(vol: int, loc: Location, rate: real)
    | AirGap(vol: int)
    | Dispense(vol: int, loc: Location)
    | Mix(reps: int, mixVol: Option<int>, loc: Location)
    | BlowOut(at: Option<Location>)   // None: blow out where the pipette is
    | DropTip
    | ReturnTip
    | AddBuffer(call: BufferCall)     // everything the buffer routine issues
    | Disengage
    | Engage(height: Option<real>)    // None: the module's default engage height
    | Delay(seconds: int)

  /** The tip release chosen by a `drop_tip` flag. */
  function Release(drop: bool): Command {
    if drop then DropTip else ReturnTip
  }

  /** Commands that need a tip on the pipette. */
  predicate IsLiquid(c: Command) {
    c.Aspirate? || c.AirGap? || c.Dispense? || c.Mix? || c.BlowOut?
  }

  predicate LiquidOnly(t: seq<Command>) {
    forall k :: 0 <= k < |t| ==> IsLiquid(t[k])
  }

  /**
   * One step of the tip lifecycle: `held` says whether the pipette carries a
   * tip. A pick-up needs an empty pipette, a release needs a tip, liquid
   * commands need a tip, and the buffer routine and the magnet and timer
   * commands run with an empty pipette and leave it empty. None is a
   * lifecycle violation.
   */
  function Step(held: bool, c: Command): Option<bool> {
    match c
    case PickUp(_, _) => if held then None else Some(true)
    case DropTip => if held then Some(false) else None
    case ReturnTip => if held then Some(false) else None
    case AddBuffer(_) => if held then None else Some(false)
    case Disengage => if held then None else Some(false)
    case Engage(_) => if held then None else Some(false)
    case Delay(_) => if held then None else Some(false)
    case _ => if held then Some(true) else None
  }

  function Run(held: bool, t: seq<Command>): Option<bool>
    decreases |t|
  {
    if t == [] then Some(held)
    else
      match Step(held, t[0])
      case None => None
      case Some(h) => Run(h, t[1..])
  }

  /** Every tip picked up is released exactly once, before the next pick-up,
      and nothing needing a tip happens without one. */
  predicate TipsPaired(t: seq<Command>) {
    Run(false, t) == Some(false)
  }

  lemma {:induction false} RunAppend(held: bool, a: seq<Command>, b: seq<Command>, mid: bool)
    requires Run(held, a) == Some(mid)
    ensures Run(held, a + b) == Run(mid, b)
    decreases |a|
  {
    if a == [] {
      assert a + b == b;
    } else {
      assert (a + b)[0] == a[0];
      assert (a + b)[1..] == a[1..] + b;
      match Step(held, a[0])
      case Some(h) => RunAppend(h, a[1..], b, mid);
    }
  }

  /** Liquid commands leave a held tip held. */
  lemma {:induction false} RunLiquid(t: seq<Command>)
    requires LiquidOnly(t)
    ensures Run(true, t) == Some(true)
    decreases |t|
  {
    if t != [] {
      assert IsLiquid(t[0]);
      assert LiquidOnly(t[1..]) by {
        forall k | 0 <= k < |t[1..]| ensures IsLiquid(t[1..][k]) { assert t[1..][k] == t[k + 1]; }
      }
      RunLiquid(t[1..]);
    }
  }

  /** Commands issued with no tip on the pipette and leaving none on it. */
  predicate IsTipless(c: Command) {
    c.AddBuffer? || c.Disengage? || c.Engage? || c.Delay?
  }

  lemma {:induction false} RunTipless(t: seq<Command>)
    requires forall k :: 0 <= k < |t| ==> IsTipless(t[k])
    ensures Run(false, t) == Some(false)
    decreases |t|
  {
    if t != [] {
      assert forall k :: 0 <= k < |t[1..]| ==> t[1..][k] == t[k + 1];
      RunTipless(t[1..]);
    }
  }

  /** A magnet move, a buffer addition or a delay issued while a tip is held
      breaks the lifecycle, whatever came before and whatever follows. */
  lemma TiplessWithTipFails(a: seq<Command>, c: Command, b: seq<Command>)
    requires IsTipless(c) && Run(false, a) == Some(true)
    ensures !TipsPaired(a + [c] + b)
  {
    assert a + [c] + b == a + ([c] + b);
    RunAppend(false, a, [c] + b, true);
    assert ([c] + b)[0] == c;
  }

  lemma LiquidOnlyAppend(a: seq<Command>, b: seq<Command>)
    requires LiquidOnly(a) && LiquidOnly(b)
    ensures LiquidOnly(a + b)
  {
    forall k | 0 <= k < |a + b| ensures IsLiquid((a + b)[k]) {
      if k < |a| { assert (a + b)[k] == a[k]; } else { assert (a + b)[k] == b[k - |a|]; }
    }
  }

  /** Kinds of command picked out of a trace. */
  datatype Kind = TipPickUps | TipReleases | MagnetMoves | Timers | Mixes | BlowOuts | Aspirations | BufferAdds

  predicate IsKind(c: Command, k: Kind) {
    match k
    case TipPickUps => c.PickUp?
    case TipReleases => c.DropTip? || c.ReturnTip?
    case MagnetMoves => c.Disengage? || c.Engage?
    case Timers => c.Delay?
    case Mixes => c.Mix?
    case BlowOuts => c.BlowOut?
    case Aspirations => c.Aspirate?
    case BufferAdds => c.AddBuffer?
  }

  /** The commands of kind `k` in `t`, in trace order. */
  function Filter(t: seq<Command>, k: Kind): (r: seq<Command>)
    ensures |r| <= |t|
    ensures forall j :: 0 <= j < |r| ==> IsKind(r[j], k)
    decreases |t|
  {
    if t == [] then []
    else if IsKind(t[|t| - 1], k) then Filter(t[..|t| - 1], k) + [t[|t| - 1]]
    else Filter(t[..|t| - 1], k)
  }

  lemma {:induction false} FilterAppend(a: seq<Command>, b: seq<Command>, k: Kind)
    ensures Filter(a + b, k) == Filter(a, k) + Filter(b, k)
    decreases |b|
  {
    if b == [] {
      assert a + b == a;
    } else {
      var n := |b| - 1;
      assert (a + b)[..|a + b| - 1] == a + b[..n];
      assert (a + b)[|a + b| - 1] == b[n];
      FilterAppend(a, b[..n], k);
    }
  }

  /** A trace with no command of kind `k` filters to nothing. */
  lemma {:induction false} FilterNone(t: seq<Command>, k: Kind)
    requires forall j :: 0 <= j < |t| ==> !IsKind(t[j], k)
    ensures Filter(t, k) == []
    decreases |t|
  {
    if t != [] {
      FilterNone(t[..|t| - 1], k);
    }
  }

  /** Total volume of the aspirations in a trace. */
  function AspiratedVolume(t: seq<Command>): int
    decreases |t|
  {
    if t == [] then 0
    else (if t[0].Aspirate? then t[0].vol else 0) + AspiratedVolume(t[1..])
  }

  lemma {:induction false} AspiratedVolumeAppend(a: seq<Command>, b: seq<Command>)
    ensures AspiratedVolume(a + b) == AspiratedVolume(a) + AspiratedVolume(b)
    decreases |a|
  {
    if a == [] {
      assert a + b == b;
    } else {
      assert (a + b)[0] == a[0];
      assert (a + b)[1..] == a[1..] + b;
      AspiratedVolumeAppend(a[1..], b);
    }
  }
}
