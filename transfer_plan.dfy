/**
 * Supernatant removal drains a well in chunks that fit one tip: each chunk is
 * min(remaining, tip_vol - 10), drawn from 4 mm above the bottom while more
 * than 190 µL remain before the chunk and from `bottom_offset` otherwise.
 * The plan below is the sequence of (volume, height) pairs that the removal
 * loop goes through for one column.
 */
module TransferPlan {

  /** Headroom kept free in the tip: the air gap drawn after each chunk. */
  const TipReserve: int := 10
  const AirGapVolume: int := 10
  /** Remaining volume at or below which a chunk is drawn near the bottom. */
  const LowVolumeThreshold: int := 190
  /** Aspiration height while the well still holds more than the threshold. */
  const DefaultHeight: real := 4.0

  datatype Chunk = Chunk(vol: int, z: real)

  function Min(a: int, b: int): int {
    if a <= b then a else b
  }

  /** The height a chunk is drawn from, chosen from the volume left before it. */
  function Height(remaining: int, bottomOffset: real): real {
    if remaining <= LowVolumeThreshold then bottomOffset else DefaultHeight
  }

  /**
   * The chunks that drain `remaining` with at most `cap` per chunk. The loop
   * it models only terminates when `cap` is positive or nothing is left.
   */
  function Plan(remaining: int, cap: int, bottomOffset: real): seq<Chunk>
    requires cap > 0 || remaining <= 0
    decreases remaining
  {
    if remaining <= 0 then []
    else
      var c := Min(remaining, cap);
      [Chunk(c, Height(remaining, bottomOffset))] + Plan(remaining - c, cap, bottomOffset)
  }

  function Total(plan: seq<Chunk>): int
    decreases |plan|
  {
    if plan == [] then 0 else plan[0].vol + Total(plan[1..])
  }

  /** The chunks add up to the requested volume: nothing is left behind and
      nothing is over-drawn. A non-positive request drains nothing. */
  lemma {:induction false} PlanTotal(v: int, cap: int, bo: real)
    requires cap > 0 || v <= 0
    ensures Total(Plan(v, cap, bo)) == if v > 0 then v else 0
    decreases v
  {
    if v > 0 {
      var c := Min(v, cap);
      var rest := Plan(v - c, cap, bo);
      assert Plan(v, cap, bo)[1..] == rest;
      PlanTotal(v - c, cap, bo);
    }
  }

  /** Every chunk is positive and fits the tip; every chunk but the last
      fills it. */
  lemma {:induction false} PlanChunks(v: int, cap: int, bo: real)
    requires cap > 0 || v <= 0
    ensures forall j :: 0 <= j < |Plan(v, cap, bo)| ==> 0 < Plan(v, cap, bo)[j].vol <= cap
    ensures forall j :: 0 <= j < |Plan(v, cap, bo)| - 1 ==> Plan(v, cap, bo)[j].vol == cap
    decreases v
  {
    if v > 0 {
      var c := Min(v, cap);
      var plan := Plan(v, cap, bo);
      var rest := Plan(v - c, cap, bo);
      assert plan == [Chunk(c, Height(v, bo))] + rest;
      PlanChunks(v - c, cap, bo);
      if c < cap {
        assert v - c == 0;
        assert rest == [];
      }
      forall j | 0 <= j < |plan| ensures 0 < plan[j].vol <= cap {
        if j > 0 { assert plan[j] == rest[j - 1]; }
      }
      forall j | 0 <= j < |plan| - 1 ensures plan[j].vol == cap {
        if j > 0 { assert plan[j] == rest[j - 1]; } else { assert |rest| > 0; }
      }
    }
  }

  /** The number of chunks is the ceiling of v / cap: the fewest chunks of at
      most `cap` that cover `v`. */
  lemma {:induction false} PlanCount(v: int, cap: int, bo: real)
    requires cap > 0 || v <= 0
    ensures v <= 0 ==> |Plan(v, cap, bo)| == 0
    ensures v > 0 ==> (|Plan(v, cap, bo)| - 1) * cap < v <= |Plan(v, cap, bo)| * cap
    decreases v
  {
    if v > 0 {
      var c := Min(v, cap);
      var n := |Plan(v, cap, bo)|;
      assert n == 1 + |Plan(v - c, cap, bo)|;
      PlanCount(v - c, cap, bo);
      if v > cap {
        assert (n - 1) * cap == (n - 2) * cap + cap;
        assert n * cap == (n - 1) * cap + cap;
      } else {
        assert n == 1;
      }
    }
  }

  /** Chunk j starts with v - j * cap left in the well; its volume and height
      follow from that remaining volume. */
  lemma {:induction false} PlanAt(v: int, cap: int, bo: real, j: nat)
    requires cap > 0 || v <= 0
    requires j < |Plan(v, cap, bo)|
    ensures Plan(v, cap, bo)[j].vol == Min(v - j * cap, cap)
    ensures Plan(v, cap, bo)[j].z == (if v - j * cap <= LowVolumeThreshold then bo else DefaultHeight)
    decreases j
  {
    if j > 0 {
      var rest := Plan(v - Min(v, cap), cap, bo);
      assert Plan(v, cap, bo)[j] == rest[j - 1];
      assert v - Min(v, cap) > 0;
      PlanAt(v - cap, cap, bo, j - 1);
      MulPred(j, cap);
    }
  }

  lemma MulPred(j: int, cap: int)
    ensures (j - 1) * cap == j * cap - cap
  {
  }

  /** The default run: 600 µL with 200 µL tips is drained as 190, 190, 190, 30,
      the last near the bottom. */
  lemma DefaultPlan(bo: real)
    ensures Plan(600, 200 - TipReserve, bo) ==
      [Chunk(190, DefaultHeight), Chunk(190, DefaultHeight), Chunk(190, DefaultHeight), Chunk(30, bo)]
  {
    assert Plan(30, 190, bo) == [Chunk(30, bo)] + Plan(0, 190, bo);
    assert Plan(220, 190, bo) == [Chunk(190, DefaultHeight)] + Plan(30, 190, bo);
    assert Plan(410, 190, bo) == [Chunk(190, DefaultHeight)] + Plan(220, 190, bo);
  }

  /** The threshold is fixed at 190 µL whatever the tip: with a larger tip a
      volume between 190 µL and the tip's capacity is drawn in one chunk from
      the default height, never from `bottom_offset`. */
  lemma FixedThreshold(v: int, cap: int, bo: real)
    requires LowVolumeThreshold < v <= cap
    ensures Plan(v, cap, bo) == [Chunk(v, DefaultHeight)]
  {
    assert Plan(v, cap, bo) == [Chunk(v, DefaultHeight)] + Plan(0, cap, bo);
  }
}
