/**
 * What each routine issues, as a pure function of its arguments. Every
 * routine except the wash walks the columns in order and gives each column
 * one block: pick up the column's tip, do the routine's work, release the tip.
 */
module Routines {
  import opened Commands
  import opened TransferPlan
  import opened Offset

  datatype MixParams = MixParams(
    plate: LabwareId, tiprack: LabwareId, n: int, zOffset: real,
    mixVol: int, mixLift: real, dropTip: bool)

  datatype SuperParams = SuperParams(
    plate: LabwareId, tiprack: LabwareId, waste: WellRef, superVol: int,
    tipVol: int, rate: real, bottomOffset: real, dropTip: bool)
  {
    /** The draining loop ends: each chunk removes something, or nothing is
        there to remove. */
    predicate Terminates() {
      tipVol > TipReserve || superVol <= 0
    }

    function Chunks(): seq<Chunk>
      requires Terminates()
    {
      Plan(superVol, tipVol - TipReserve, bottomOffset)
    }
  }

  datatype EluteParams = EluteParams(
    source: LabwareId, dest: LabwareId, tiprack: LabwareId, vol: int,
    zOffset: real, xOffset: real, rate: real, dropTip: bool,
    mixN: Option<int>, mixVol: Option<int>, oddOrEven: Col -> int)

  /** The three column-by-column routines. */
  datatype Routine = Mixing(mp: MixParams) | Removal(sp: SuperParams) | Elution(ep: EluteParams)
  {
    predicate Valid() {
      Removal? ==> sp.Terminates()
    }

    function Rack(): LabwareId {
      match this
      case Mixing(p) => p.tiprack
      case Removal(p) => p.tiprack
      case Elution(p) => p.tiprack
    }

    function Drop(): bool {
      match this
      case Mixing(p) => p.dropTip
      case Removal(p) => p.dropTip
      case Elution(p) => p.dropTip
    }
  }

  /** One chunk of supernatant: draw it, draw an air gap, empty both into the
      waste. */
  function DrainStep(p: SuperParams, col: Col, c: Chunk): seq<Command> {
    [Aspirate(c.vol, Bottom(p.plate, col, c.z), p.rate),
     AirGap(AirGapVolume),
     Dispense(c.vol + AirGapVolume, WasteTop(p.waste))]
  }

  function Drain(p: SuperParams, col: Col, plan: seq<Chunk>): seq<Command>
    decreases |plan|
  {
    if plan == [] then [] else DrainStep(p, col, plan[0]) + Drain(p, col, plan[1..])
  }

  /** The well bottom of `col` moved sideways by the column's parity offset. */
  function EluteLocation(p: EluteParams, col: Col): Location {
    Shifted(Bottom(p.source, col, p.zOffset), SideOffset(p.oddOrEven(col), p.xOffset))
  }

  /** What a routine does to one column while it holds the column's tip. */
  function Work(r: Routine, col: Col): (w: seq<Command>)
    requires r.Valid()
    ensures |w| == WorkSize(r)
  {
    if r.Removal? then DrainLength(r.sp, col, r.sp.Chunks()); WorkOf(r, col) else WorkOf(r, col)
  }

  function WorkOf(r: Routine, col: Col): seq<Command>
    requires r.Valid()
  {
    match r
    case Mixing(p) =>
      [Mix(p.n, Some(p.mixVol), Bottom(p.plate, col, p.zOffset)),
       Dispense(p.mixVol, Bottom(p.plate, col, p.zOffset + p.mixLift)),
       BlowOut(Some(Top(p.plate, col)))]
    case Removal(p) =>
      Drain(p, col, p.Chunks()) + [BlowOut(None)]
    case Elution(p) =>
      [Aspirate(p.vol, EluteLocation(p, col), p.rate), Dispense(p.vol, WellOf(p.dest, col))] +
      (if p.mixN.Some?
       then [Mix(p.mixN.value, p.mixVol, Bottom(p.dest, col, 1.0)), BlowOut(Some(Top(p.dest, col)))]
       else [])
  }

  function Block(r: Routine, col: Col): seq<Command>
    requires r.Valid()
  {
    [PickUp(r.Rack(), col)] + Work(r, col) + [Release(r.Drop())]
  }

  /** Everything a routine issues for `cols`, column after column. */
  function Sweep(r: Routine, cols: seq<Col>): seq<Command>
    requires r.Valid()
    decreases |cols|
  {
    if cols == [] then []
    else Sweep(r, cols[..|cols| - 1]) + Block(r, cols[|cols| - 1])
  }

  /** A sweep grows by one block per column. */
  lemma SweepSnoc(r: Routine, cols: seq<Col>, i: nat)
    requires r.Valid() && i < |cols|
    ensures Sweep(r, cols[..i + 1]) == Sweep(r, cols[..i]) + Block(r, cols[i])
  {
    assert cols[..i + 1][..i] == cols[..i];
  }

  function WorkSize(r: Routine): nat
    requires r.Valid()
  {
    match r
    case Mixing(_) => 3
    case Removal(p) => 3 * |p.Chunks()| + 1
    case Elution(p) => if p.mixN.Some? then 4 else 2
  }

  function BlockSize(r: Routine): nat
    requires r.Valid()
  {
    WorkSize(r) + 2
  }

  // ---------------------------------------------------------------------------
  // Draining one column

  lemma {:induction false} DrainAt(p: SuperParams, col: Col, plan: seq<Chunk>, j: nat)
    requires j < |plan|
    ensures |Drain(p, col, plan)| == 3 * |plan|
    ensures Drain(p, col, plan)[3 * j] == Aspirate(plan[j].vol, Bottom(p.plate, col, plan[j].z), p.rate)
    ensures Drain(p, col, plan)[3 * j + 1] == AirGap(AirGapVolume)
    ensures Drain(p, col, plan)[3 * j + 2] == Dispense(plan[j].vol + AirGapVolume, WasteTop(p.waste))
    decreases |plan|
  {
    DrainLength(p, col, plan);
    if j > 0 {
      DrainAt(p, col, plan[1..], j - 1);
      assert plan[1..][j - 1] == plan[j];
    }
  }

  lemma {:induction false} DrainLength(p: SuperParams, col: Col, plan: seq<Chunk>)
    ensures |Drain(p, col, plan)| == 3 * |plan|
    decreases |plan|
  {
    if plan != [] {
      DrainLength(p, col, plan[1..]);
    }
  }

  /** Draining a positive volume starts with one chunk of at most `cap`. */
  lemma DrainHead(p: SuperParams, col: Col, v: int, cap: int, bo: real)
    requires v > 0 && cap > 0
    ensures Drain(p, col, Plan(v, cap, bo)) ==
      DrainStep(p, col, Chunk(Min(v, cap), Height(v, bo))) + Drain(p, col, Plan(v - Min(v, cap), cap, bo))
  {
    var plan := Plan(v, cap, bo);
    assert plan[0] == Chunk(Min(v, cap), Height(v, bo));
    assert plan[1..] == Plan(v - Min(v, cap), cap, bo);
  }

  /** Position k of a drain is part j = k / 3 of chunk k / 3. */
  lemma DrainIndex(p: SuperParams, col: Col, plan: seq<Chunk>, k: nat)
    requires k < |Drain(p, col, plan)|
    ensures k / 3 < |plan|
    ensures Drain(p, col, plan)[k] == DrainStep(p, col, plan[k / 3])[k % 3]
  {
    DrainLength(p, col, plan);
    DrainAt(p, col, plan, k / 3);
  }

  lemma {:induction false} DrainVolume(p: SuperParams, col: Col, plan: seq<Chunk>)
    ensures AspiratedVolume(Drain(p, col, plan)) == Total(plan)
    decreases |plan|
  {
    if plan != [] {
      var step := DrainStep(p, col, plan[0]);
      assert AspiratedVolume(step[1..][1..][1..]) == 0;
      assert AspiratedVolume(step[1..][1..]) == 0;
      assert AspiratedVolume(step[1..]) == 0;
      assert AspiratedVolume(step) == plan[0].vol;
      AspiratedVolumeAppend(step, Drain(p, col, plan[1..]));
      DrainVolume(p, col, plan[1..]);
    }
  }

  // ---------------------------------------------------------------------------
  // Blocks

  lemma WorkIsLiquid(r: Routine, col: Col)
    requires r.Valid()
    ensures LiquidOnly(Work(r, col))
  {
    if r.Removal? {
      forall k | 0 <= k < |Drain(r.sp, col, r.sp.Chunks())|
        ensures IsLiquid(Drain(r.sp, col, r.sp.Chunks())[k])
      {
        DrainIndex(r.sp, col, r.sp.Chunks(), k);
      }
      LiquidOnlyAppend(Drain(r.sp, col, r.sp.Chunks()), [BlowOut(None)]);
    }
  }

  /** A block picks up one tip, keeps it for its work and releases it. */
  lemma BlockTips(r: Routine, col: Col)
    requires r.Valid()
    ensures Run(false, Block(r, col)) == Some(false)
    ensures Filter(Block(r, col), TipPickUps) == [PickUp(r.Rack(), col)]
    ensures Filter(Block(r, col), TipReleases) == [Release(r.Drop())]
  {
    var w := Work(r, col);
    var pw := [PickUp(r.Rack(), col)] + w;
    assert Block(r, col) == pw + [Release(r.Drop())];
    WorkIsLiquid(r, col);
    BlockRun(r, col, w, pw);
    BlockFilter(w, pw, [Release(r.Drop())], TipPickUps);
    BlockFilter(w, pw, [Release(r.Drop())], TipReleases);
  }

  lemma BlockRun(r: Routine, col: Col, w: seq<Command>, pw: seq<Command>)
    requires LiquidOnly(w) && pw == [PickUp(r.Rack(), col)] + w
    ensures Run(false, pw + [Release(r.Drop())]) == Some(false)
  {
    RunLiquid(w);
    RunAppend(false, [PickUp(r.Rack(), col)], w, true);
    RunAppend(false, pw, [Release(r.Drop())], true);
  }

  /** The filter of a block for tip commands: the work has none. */
  lemma BlockFilter(w: seq<Command>, pw: seq<Command>, rl: seq<Command>, k: Kind)
    requires LiquidOnly(w) && |pw| == |w| + 1 && pw[1..] == w && |rl| == 1
    requires k == TipPickUps || k == TipReleases
    ensures Filter(pw + rl, k) == (if IsKind(pw[0], k) then [pw[0]] else []) + (if IsKind(rl[0], k) then rl else [])
  {
    var pk := [pw[0]];
    assert pw == pk + w;
    assert pk[..0] == [] && rl[..0] == [] && rl == [rl[0]];
    FilterNone(w, k);
    FilterAppend(pk, w, k);
    FilterAppend(pw, rl, k);
  }

  // ---------------------------------------------------------------------------
  // Sweeps: the column blocks in order

  lemma {:induction false} SweepLength(r: Routine, cols: seq<Col>)
    requires r.Valid()
    ensures |Sweep(r, cols)| == |cols| * BlockSize(r)
    decreases |cols|
  {
    if cols != [] {
      var n := |cols|;
      var front := cols[..n - 1];
      SweepLength(r, front);
      assert |Sweep(r, cols)| == |Sweep(r, front)| + |Block(r, cols[n - 1])|;
      MulSucc(n - 1, BlockSize(r));
    }
  }

  lemma MulSucc(a: int, c: int)
    ensures a * c + c == (a + 1) * c
  {
  }

  lemma MulMono(a: int, b: int, c: nat)
    requires a <= b
    ensures a * c <= b * c
  {
  }

  /** Position m of column i's block sits at i * BlockSize(r) + m. */
  lemma {:induction false} SweepAt(r: Routine, cols: seq<Col>, i: nat, m: nat)
    requires r.Valid()
    requires i < |cols| && m < BlockSize(r)
    ensures |Sweep(r, cols)| == |cols| * BlockSize(r)
    ensures i * BlockSize(r) + m < |Sweep(r, cols)|
    ensures Sweep(r, cols)[i * BlockSize(r) + m] == Block(r, cols[i])[m]
    decreases |cols|
  {
    var n, size := |cols|, BlockSize(r);
    var front := cols[..n - 1];
    SweepLength(r, cols);
    SweepLength(r, front);
    MulMono(i + 1, n, size);
    if i < n - 1 {
      SweepAt(r, front, i, m);
      MulMono(i + 1, n - 1, size);
      assert front[i] == cols[i];
    } else {
      assert i * size == |Sweep(r, front)|;
    }
  }

  /** Every position of a sweep belongs to one column's block. */
  lemma SweepIndex(r: Routine, cols: seq<Col>, k: nat)
    requires r.Valid()
    requires k < |Sweep(r, cols)|
    ensures BlockSize(r) > 0
    ensures 0 <= k / BlockSize(r) < |cols| && 0 <= k % BlockSize(r) < BlockSize(r)
    ensures (k / BlockSize(r)) * BlockSize(r) + k % BlockSize(r) == k
    ensures Sweep(r, cols)[k] == Block(r, cols[k / BlockSize(r)])[k % BlockSize(r)]
  {
    var size := BlockSize(r);
    SweepLength(r, cols);
    DivBound(k, |cols|, size);
    var i, m := k / size, k % size;
    assert i < |cols|;
    assert m < size;
    assert i * size + m == k;
    SweepAt(r, cols, i, m);
    assert Sweep(r, cols)[k] == Block(r, cols[i])[m];
  }

  lemma DivBound(k: nat, n: nat, d: nat)
    requires d > 0 && k < n * d
    ensures 0 <= k / d < n && 0 <= k % d < d && (k / d) * d + k % d == k
  {
    if k / d >= n {
      MulMono(n, k / d, d);
    }
  }

  /** Tip lifecycle of a whole routine: every tip taken is released once, and
      the tips are taken from the routine's rack, one per column, in the
      order the columns were given; each release is the routine's drop-or-
      return choice. */
  lemma {:induction false} SweepTips(r: Routine, cols: seq<Col>)
    requires r.Valid()
    ensures TipsPaired(Sweep(r, cols))
    ensures |Filter(Sweep(r, cols), TipPickUps)| == |cols|
    ensures forall i :: 0 <= i < |cols| ==> Filter(Sweep(r, cols), TipPickUps)[i] == PickUp(r.Rack(), cols[i])
    ensures |Filter(Sweep(r, cols), TipReleases)| == |cols|
    ensures forall i :: 0 <= i < |cols| ==> Filter(Sweep(r, cols), TipReleases)[i] == Release(r.Drop())
    ensures forall i :: 0 <= i < |cols| ==> (Filter(Sweep(r, cols), TipReleases)[i].DropTip? <==> r.Drop())
    decreases |cols|
  {
    if cols != [] {
      var n := |cols|;
      var front := cols[..n - 1];
      var b := Block(r, cols[n - 1]);
      var s := Sweep(r, front);
      assert Sweep(r, cols) == s + b;
      SweepTips(r, front);
      BlockTips(r, cols[n - 1]);
      RunAppend(false, s, b, false);
      FilterAppend(s, b, TipPickUps);
      FilterAppend(s, b, TipReleases);
      var picks, releases := Filter(s, TipPickUps), Filter(s, TipReleases);
      assert Filter(Sweep(r, cols), TipPickUps) == picks + [PickUp(r.Rack(), cols[n - 1])];
      assert Filter(Sweep(r, cols), TipReleases) == releases + [Release(r.Drop())];
      forall i | 0 <= i < n
        ensures Filter(Sweep(r, cols), TipPickUps)[i] == PickUp(r.Rack(), cols[i])
      {
        if i < n - 1 { assert front[i] == cols[i]; }
      }
      forall i | 0 <= i < n
        ensures Filter(Sweep(r, cols), TipReleases)[i] == Release(r.Drop())
      {
      }
    }
  }

  // ---------------------------------------------------------------------------
  // bead_mix

  /** Column i of a bead mix: pick up its tip, mix at the bottom offset,
      dispense `mix_lift` higher, blow out at the top, release the tip. */
  lemma BeadMixColumn(p: MixParams, cols: seq<Col>, i: nat)
    requires i < |cols|
    ensures |Sweep(Mixing(p), cols)| == 5 * |cols|
    ensures Sweep(Mixing(p), cols)[5 * i] == PickUp(p.tiprack, cols[i])
    ensures Sweep(Mixing(p), cols)[5 * i + 1] == Mix(p.n, Some(p.mixVol), Bottom(p.plate, cols[i], p.zOffset))
    ensures Sweep(Mixing(p), cols)[5 * i + 2] == Dispense(p.mixVol, Bottom(p.plate, cols[i], p.zOffset + p.mixLift))
    ensures Sweep(Mixing(p), cols)[5 * i + 3] == BlowOut(Some(Top(p.plate, cols[i])))
    ensures Sweep(Mixing(p), cols)[5 * i + 4] == Release(p.dropTip)
  {
    var r := Mixing(p);
    MixBlock(p, cols[i]);
    SweepAt(r, cols, i, 0);
    SweepAt(r, cols, i, 1);
    SweepAt(r, cols, i, 2);
    SweepAt(r, cols, i, 3);
    SweepAt(r, cols, i, 4);
  }

  lemma MixBlock(p: MixParams, col: Col)
    ensures BlockSize(Mixing(p)) == 5
    ensures Block(Mixing(p), col) ==
      [PickUp(p.tiprack, col), Mix(p.n, Some(p.mixVol), Bottom(p.plate, col, p.zOffset)),
       Dispense(p.mixVol, Bottom(p.plate, col, p.zOffset + p.mixLift)),
       BlowOut(Some(Top(p.plate, col))), Release(p.dropTip)]
  {
  }

  /** A bead mix draws no liquid out of the plate: it only mixes in place. */
  lemma BeadMixNoAspirate(p: MixParams, cols: seq<Col>, k: nat)
    requires k < |Sweep(Mixing(p), cols)|
    ensures !Sweep(Mixing(p), cols)[k].Aspirate?
    ensures !Sweep(Mixing(p), cols)[k].AddBuffer?
    ensures !Sweep(Mixing(p), cols)[k].Disengage? && !Sweep(Mixing(p), cols)[k].Engage?
    ensures !Sweep(Mixing(p), cols)[k].Delay?
  {
    SweepIndex(Mixing(p), cols, k);
  }

  // ---------------------------------------------------------------------------
  // remove_supernatant

  /** The block of one column during supernatant removal: its tip, then for
      chunk j of the plan an aspiration from the chunk's height, a 10 µL air
      gap and a dispense of chunk + 10 into the waste, then a blow-out and
      the release. */
  lemma SupernatantColumn(p: SuperParams, col: Col, j: nat)
    requires p.Terminates()
    requires j < |p.Chunks()|
    ensures var b := Block(Removal(p), col); var plan := p.Chunks();
      |b| == 3 * |plan| + 3 &&
      b[0] == PickUp(p.tiprack, col) &&
      b[3 * j + 1] == Aspirate(plan[j].vol, Bottom(p.plate, col, plan[j].z), p.rate) &&
      b[3 * j + 2] == AirGap(AirGapVolume) &&
      b[3 * j + 3] == Dispense(plan[j].vol + AirGapVolume, WasteTop(p.waste)) &&
      b[3 * |plan| + 1] == BlowOut(None) &&
      b[3 * |plan| + 2] == Release(p.dropTip)
  {
    DrainAt(p, col, p.Chunks(), j);
  }

  /** What one block of supernatant removal looks like position by position. */
  lemma SupernatantBlockAt(p: SuperParams, col: Col, m: nat)
    requires p.Terminates()
    requires m < |Block(Removal(p), col)|
    ensures var b := Block(Removal(p), col); var n := |p.Chunks()|;
      |b| == 3 * n + 3 &&
      (m == 0 ==> b[m] == PickUp(p.tiprack, col)) &&
      (1 <= m <= 3 * n ==> b[m] == DrainStep(p, col, p.Chunks()[(m - 1) / 3])[(m - 1) % 3]) &&
      (m == 3 * n + 1 ==> b[m] == BlowOut(None)) &&
      (m == 3 * n + 2 ==> b[m] == Release(p.dropTip))
  {
    var plan := p.Chunks();
    DrainLength(p, col, plan);
    if 1 <= m <= 3 * |plan| {
      DrainIndex(p, col, plan, m - 1);
    }
  }

  /** Every aspiration of supernatant is followed by the air gap and then by
      a dispense into the waste of the chunk plus the air gap. */
  lemma SupernatantAirGaps(p: SuperParams, cols: seq<Col>, k: nat)
    requires p.Terminates()
    requires k < |Sweep(Removal(p), cols)| && Sweep(Removal(p), cols)[k].Aspirate?
    ensures k + 2 < |Sweep(Removal(p), cols)|
    ensures Sweep(Removal(p), cols)[k + 1] == AirGap(AirGapVolume)
    ensures Sweep(Removal(p), cols)[k + 2] == Dispense(Sweep(Removal(p), cols)[k].vol + AirGapVolume, WasteTop(p.waste))
  {
    var r := Removal(p);
    SweepIndex(r, cols, k);
    var i, m := k / BlockSize(r), k % BlockSize(r);
    SupernatantBlockGaps(p, cols[i], m);
    SweepAt(r, cols, i, m);
    SweepAt(r, cols, i, m + 1);
    SweepAt(r, cols, i, m + 2);
  }

  /** SupernatantAirGaps within one block. */
  lemma SupernatantBlockGaps(p: SuperParams, col: Col, m: nat)
    requires p.Terminates()
    requires m < |Block(Removal(p), col)| && Block(Removal(p), col)[m].Aspirate?
    ensures var b := Block(Removal(p), col);
      m + 2 < |b| && b[m + 1] == AirGap(AirGapVolume) &&
      b[m + 2] == Dispense(b[m].vol + AirGapVolume, WasteTop(p.waste))
  {
    var n := |p.Chunks()|;
    SupernatantBlockAt(p, col, m);
    assert 1 <= m <= 3 * n && (m - 1) % 3 == 0;
    SupernatantBlockAt(p, col, m + 1);
    SupernatantBlockAt(p, col, m + 2);
    assert (m + 1 - 1) / 3 == (m - 1) / 3 && (m + 2 - 1) / 3 == (m - 1) / 3;
  }

  /** Supernatant removal draws exactly `super_vol` from every column (nothing
      when `super_vol` is not positive). */
  lemma {:induction false} SupernatantVolume(p: SuperParams, cols: seq<Col>)
    requires p.Terminates()
    ensures forall col: Col :: AspiratedVolume(Block(Removal(p), col)) == (if p.superVol > 0 then p.superVol else 0)
    ensures AspiratedVolume(Sweep(Removal(p), cols)) == |cols| * (if p.superVol > 0 then p.superVol else 0)
    decreases |cols|
  {
    var perColumn := if p.superVol > 0 then p.superVol else 0;
    forall col: Col ensures AspiratedVolume(Block(Removal(p), col)) == perColumn {
      var r := Removal(p);
      var d := Drain(p, col, p.Chunks());
      assert Block(r, col) == [PickUp(p.tiprack, col)] + d + [BlowOut(None)] + [Release(p.dropTip)];
      AspiratedVolumeAppend([PickUp(p.tiprack, col)] + d + [BlowOut(None)], [Release(p.dropTip)]);
      AspiratedVolumeAppend([PickUp(p.tiprack, col)] + d, [BlowOut(None)]);
      AspiratedVolumeAppend([PickUp(p.tiprack, col)], d);
      DrainVolume(p, col, p.Chunks());
      PlanTotal(p.superVol, p.tipVol - TipReserve, p.bottomOffset);
    }
    if cols != [] {
      var n := |cols|;
      SupernatantVolume(p, cols[..n - 1]);
      AspiratedVolumeAppend(Sweep(Removal(p), cols[..n - 1]), Block(Removal(p), cols[n - 1]));
      assert (n - 1) * perColumn + perColumn == n * perColumn;
    }
  }

  /** With nothing to remove a column still gets its tip, a blow-out and one
      release, and no liquid is moved. */
  lemma SupernatantNothingToRemove(p: SuperParams, cols: seq<Col>, i: nat)
    requires p.superVol <= 0
    requires i < |cols|
    ensures |Sweep(Removal(p), cols)| == 3 * |cols|
    ensures Sweep(Removal(p), cols)[3 * i] == PickUp(p.tiprack, cols[i])
    ensures Sweep(Removal(p), cols)[3 * i + 1] == BlowOut(None)
    ensures Sweep(Removal(p), cols)[3 * i + 2] == Release(p.dropTip)
    ensures forall k :: 0 <= k < |Sweep(Removal(p), cols)| ==>
      !Sweep(Removal(p), cols)[k].Aspirate? && !Sweep(Removal(p), cols)[k].AirGap? && !Sweep(Removal(p), cols)[k].Dispense?
  {
    var r := Removal(p);
    EmptyBlock(p, cols[i]);
    SweepAt(r, cols, i, 0);
    SweepAt(r, cols, i, 1);
    SweepAt(r, cols, i, 2);
    forall k | 0 <= k < |Sweep(r, cols)|
      ensures !Sweep(r, cols)[k].Aspirate? && !Sweep(r, cols)[k].AirGap? && !Sweep(r, cols)[k].Dispense?
    {
      EmptySweepAt(p, cols, k);
    }
  }

  lemma EmptySweepAt(p: SuperParams, cols: seq<Col>, k: nat)
    requires p.superVol <= 0
    requires k < |Sweep(Removal(p), cols)|
    ensures !Sweep(Removal(p), cols)[k].Aspirate? && !Sweep(Removal(p), cols)[k].AirGap? &&
            !Sweep(Removal(p), cols)[k].Dispense?
  {
    var r := Removal(p);
    SweepIndex(r, cols, k);
    EmptyBlock(p, cols[k / BlockSize(r)]);
  }

  lemma EmptyBlock(p: SuperParams, col: Col)
    requires p.superVol <= 0
    ensures BlockSize(Removal(p)) == 3
    ensures Block(Removal(p), col) == [PickUp(p.tiprack, col), BlowOut(None), Release(p.dropTip)]
  {
    assert p.Chunks() == [];
    assert Drain(p, col, p.Chunks()) == [];
  }

  /** Supernatant removal mixes nothing and leaves the magnet and the timer
      alone. */
  lemma SupernatantOnlyDrains(p: SuperParams, cols: seq<Col>, k: nat)
    requires p.Terminates()
    requires k < |Sweep(Removal(p), cols)|
    ensures !Sweep(Removal(p), cols)[k].Mix?
    ensures !Sweep(Removal(p), cols)[k].AddBuffer?
    ensures !Sweep(Removal(p), cols)[k].Disengage? && !Sweep(Removal(p), cols)[k].Engage?
    ensures !Sweep(Removal(p), cols)[k].Delay?
  {
    var r := Removal(p);
    SweepIndex(r, cols, k);
    var col := cols[k / BlockSize(r)];
    SupernatantBlockAt(p, col, k % BlockSize(r));
  }

  // ---------------------------------------------------------------------------
  // transfer_elute

  /** Column i of an eluate transfer: its tip, an aspiration of `vol` from the
      well bottom shifted by +x_offset (even parity) or -x_offset (odd
      parity), a dispense of the same `vol`, a mix and blow-out only when a
      mix count is given, and the release. */
  lemma EluteColumn(p: EluteParams, cols: seq<Col>, i: nat)
    requires i < |cols|
    ensures BlockSize(Elution(p)) == if p.mixN.Some? then 6 else 4
    ensures |Sweep(Elution(p), cols)| == |cols| * BlockSize(Elution(p))
    ensures Sweep(Elution(p), cols)[i * BlockSize(Elution(p))] == PickUp(p.tiprack, cols[i])
    ensures Sweep(Elution(p), cols)[i * BlockSize(Elution(p)) + 1] ==
      Aspirate(p.vol, Shifted(Bottom(p.source, cols[i], p.zOffset),
                              if p.oddOrEven(cols[i]) % 2 == 0 then p.xOffset else -p.xOffset), p.rate)
    ensures Sweep(Elution(p), cols)[i * BlockSize(Elution(p)) + 2] == Dispense(p.vol, WellOf(p.dest, cols[i]))
    ensures p.mixN.Some? ==>
      Sweep(Elution(p), cols)[i * BlockSize(Elution(p)) + 3] == Mix(p.mixN.value, p.mixVol, Bottom(p.dest, cols[i], 1.0)) &&
      Sweep(Elution(p), cols)[i * BlockSize(Elution(p)) + 4] == BlowOut(Some(Top(p.dest, cols[i])))
    ensures Sweep(Elution(p), cols)[i * BlockSize(Elution(p)) + BlockSize(Elution(p)) - 1] == Release(p.dropTip)
  {
    var size := BlockSize(Elution(p));
    EluteSweepAt(p, cols, i, 0);
    EluteSweepAt(p, cols, i, 1);
    EluteSweepAt(p, cols, i, 2);
    EluteSweepAt(p, cols, i, size - 1);
    if p.mixN.Some? {
      EluteSweepAt(p, cols, i, 3);
      EluteSweepAt(p, cols, i, 4);
    }
  }

  /** SweepAt for an eluate transfer, with the block written out. */
  lemma EluteSweepAt(p: EluteParams, cols: seq<Col>, i: nat, m: nat)
    requires i < |cols| && m < BlockSize(Elution(p))
    ensures var r := Elution(p); var col := cols[i];
      var b := [PickUp(p.tiprack, col), Aspirate(p.vol, EluteLocation(p, col), p.rate), Dispense(p.vol, WellOf(p.dest, col))] +
        (if p.mixN.Some? then [Mix(p.mixN.value, p.mixVol, Bottom(p.dest, col, 1.0)), BlowOut(Some(Top(p.dest, col)))] else []) +
        [Release(p.dropTip)];
      |Sweep(r, cols)| == |cols| * BlockSize(r) && i * BlockSize(r) + m < |Sweep(r, cols)| &&
      Sweep(r, cols)[i * BlockSize(r) + m] == b[m]
  {
    var r, col := Elution(p), cols[i];
    var head := [PickUp(p.tiprack, col), Aspirate(p.vol, EluteLocation(p, col), p.rate), Dispense(p.vol, WellOf(p.dest, col))];
    var mix := if p.mixN.Some? then [Mix(p.mixN.value, p.mixVol, Bottom(p.dest, col, 1.0)), BlowOut(Some(Top(p.dest, col)))] else [];
    assert Block(r, col) == head + mix + [Release(p.dropTip)];
    SweepAt(r, cols, i, m);
  }

  /** Every aspiration and dispense of an eluate transfer moves `vol`, and
      every aspiration is displaced sideways by exactly x_offset in size. */
  lemma EluteVolumes(p: EluteParams, cols: seq<Col>, k: nat)
    requires k < |Sweep(Elution(p), cols)|
    ensures var c := Sweep(Elution(p), cols)[k];
      (c.Aspirate? ==> c.vol == p.vol && c.loc.Shifted? && (c.loc.dx == p.xOffset || c.loc.dx == -p.xOffset)) &&
      (c.Dispense? ==> c.vol == p.vol)
  {
    var r := Elution(p);
    SweepIndex(r, cols, k);
    SideOffsetCases(p.oddOrEven(cols[k / BlockSize(r)]), p.xOffset);
  }

  /** Mixing and blowing out after an eluate transfer happen once per column
      when a mix count is given, and never otherwise. */
  lemma {:induction false} EluteOptionalMix(p: EluteParams, cols: seq<Col>)
    ensures |Filter(Sweep(Elution(p), cols), Mixes)| == if p.mixN.Some? then |cols| else 0
    ensures |Filter(Sweep(Elution(p), cols), BlowOuts)| == if p.mixN.Some? then |cols| else 0
    decreases |cols|
  {
    if cols != [] {
      var n := |cols|;
      var r := Elution(p);
      EluteOptionalMix(p, cols[..n - 1]);
      FilterAppend(Sweep(r, cols[..n - 1]), Block(r, cols[n - 1]), Mixes);
      FilterAppend(Sweep(r, cols[..n - 1]), Block(r, cols[n - 1]), BlowOuts);
      EluteBlockMix(p, cols[n - 1]);
    }
  }

  lemma EluteBlockMix(p: EluteParams, col: Col)
    ensures |Filter(Block(Elution(p), col), Mixes)| == if p.mixN.Some? then 1 else 0
    ensures |Filter(Block(Elution(p), col), BlowOuts)| == if p.mixN.Some? then 1 else 0
  {
    var b := Block(Elution(p), col);
    var head := [PickUp(p.tiprack, col), Aspirate(p.vol, EluteLocation(p, col), p.rate), Dispense(p.vol, WellOf(p.dest, col))];
    FilterNone(head, Mixes);
    FilterNone(head, BlowOuts);
    FilterNone([Release(p.dropTip)], Mixes);
    FilterNone([Release(p.dropTip)], BlowOuts);
    if p.mixN.Some? {
      var mid := [Mix(p.mixN.value, p.mixVol, Bottom(p.dest, col, 1.0)), BlowOut(Some(Top(p.dest, col)))];
      assert b == head + mid + [Release(p.dropTip)];
      assert mid[..1] == [mid[0]] && mid[..1][..0] == [];
      assert Filter(mid, Mixes) == [mid[0]];
      assert Filter(mid, BlowOuts) == [mid[1]];
      SmallFilters(head, mid, [Release(p.dropTip)]);
    } else {
      assert b == head + [] + [Release(p.dropTip)];
      SmallFilters(head, [], [Release(p.dropTip)]);
    }
  }

  lemma SmallFilters(a: seq<Command>, b: seq<Command>, c: seq<Command>)
    ensures |Filter(a + b + c, Mixes)| == |Filter(a, Mixes)| + |Filter(b, Mixes)| + |Filter(c, Mixes)|
    ensures |Filter(a + b + c, BlowOuts)| == |Filter(a, BlowOuts)| + |Filter(b, BlowOuts)| + |Filter(c, BlowOuts)|
  {
    FilterAppend(a + b, c, Mixes);
    FilterAppend(a, b, Mixes);
    FilterAppend(a + b, c, BlowOuts);
    FilterAppend(a, b, BlowOuts);
  }
}
