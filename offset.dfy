/**
 * Eluate transfer approaches each well from one side or the other, chosen by
 * the parity of the column: offset = (-1) ** side * x_offset.
 */
module Offset {

  function Abs(n: int): nat {
    if n < 0 then -n else n
  }

  /** (-1) ** k, as repeated multiplication. */
  function NegOnePow(k: nat): int
    decreases k
  {
    if k == 0 then 1 else -1 * NegOnePow(k - 1)
  }

  lemma {:induction false} NegOnePowParity(k: nat)
    ensures NegOnePow(k) == if k % 2 == 0 then 1 else -1
    decreases k
  {
    if k > 0 {
      NegOnePowParity(k - 1);
    }
  }

  /**
   * The lateral offset for a column of parity `side`. For a negative `side`
   * Python's (-1) ** side is 1 / (-1) ** -side, the same value, so the power
   * is taken of |side|.
   */
  function SideOffset(side: int, xOffset: real): (r: real)
    ensures side % 2 == 0 ==> r == xOffset
    ensures side % 2 == 1 ==> r == -xOffset
  {
    NegOnePowParity(Abs(side));
    (NegOnePow(Abs(side)) as real) * xOffset
  }

  /** Even columns are approached at +x_offset, odd ones at -x_offset; either
      way the displacement is x_offset in size. */
  lemma SideOffsetCases(side: int, xOffset: real)
    ensures side == 0 ==> SideOffset(side, xOffset) == xOffset
    ensures side == 1 ==> SideOffset(side, xOffset) == -xOffset
    ensures SideOffset(side, xOffset) == xOffset || SideOffset(side, xOffset) == -xOffset
  {
  }
}
