/** The exact axis tables of the spiral generator (SpiralMaker.cs, lines
    95-117 and 127-128): step n uses the pair (xAxes[n % 4], yAxes[n % 4]),
    looked up rather than computed with sine and cosine. */
module Axes {
  import opened Geometry

  /** `xAxes`: +X, +Y, -X, -Y */
  const XAxes: seq<Dir> := [PosX, PosY, NegX, NegY]
  /** `yAxes`: +Y, -X, -Y, +X */
  const YAxes: seq<Dir> := [PosY, NegX, NegY, PosX]

  /** `xAxes[n % 4]`: the entry of index q is +X turned q times by +90
      degrees, so the lookup is the rotation by n % 4 quarter turns */
  function XAxisAt(n: nat): (d: Dir)
    ensures d == TurnTimes(PosX, n % 4)
  {
    var q := n % 4;
    assert q == 0 || q == 1 || q == 2 || q == 3;
    assert TurnTimes(PosX, 3) == NegY;
    XAxes[q]
  }

  /** `yAxes[n % 4]`: always the step's x-axis turned by +90 degrees */
  function YAxisAt(n: nat): (d: Dir)
    ensures d == Turn(XAxisAt(n))
  {
    var q := n % 4;
    assert q == 0 || q == 1 || q == 2 || q == 3;
    YAxes[q]
  }

  /** From one step to the next both axes turn by +90 degrees; the x-axis of
      step n + 1 is the y-axis of step n. */
  lemma AxesTurnEachStep(n: nat)
    ensures XAxisAt(n + 1) == Turn(XAxisAt(n)) == YAxisAt(n)
    ensures YAxisAt(n + 1) == Turn(YAxisAt(n))
  {
    var q := n % 4;
    if q == 0 {
      assert (n + 1) % 4 == 1;
    } else if q == 1 {
      assert (n + 1) % 4 == 2;
    } else if q == 2 {
      assert (n + 1) % 4 == 3;
    } else {
      assert (n + 1) % 4 == 0;
    }
  }

  /** The pairs repeat with period exactly 4. */
  lemma AxesPeriodFour(n: nat)
    ensures XAxisAt(n + 4) == XAxisAt(n) && YAxisAt(n + 4) == YAxisAt(n)
    ensures XAxisAt(n + 1) != XAxisAt(n) && XAxisAt(n + 2) != XAxisAt(n) && XAxisAt(n + 3) != XAxisAt(n)
  {
    var q := n % 4;
    assert (n + 4) % 4 == q;
    if q == 0 {
      assert (n + 1) % 4 == 1 && (n + 2) % 4 == 2 && (n + 3) % 4 == 3;
    } else if q == 1 {
      assert (n + 1) % 4 == 2 && (n + 2) % 4 == 3 && (n + 3) % 4 == 0;
    } else if q == 2 {
      assert (n + 1) % 4 == 3 && (n + 2) % 4 == 0 && (n + 3) % 4 == 1;
    } else {
      assert (n + 1) % 4 == 0 && (n + 2) % 4 == 1 && (n + 3) % 4 == 2;
    }
  }

  /** `d` turned `k` times by +90 degrees */
  function TurnTimes(d: Dir, k: nat): Dir {
    if k == 0 then d else Turn(TurnTimes(d, k - 1))
  }

  /** The table agrees with the rotation it replaces: the axes of step n are
      the world axes +X and +Y turned n times by +90 degrees. */
  lemma {:induction false} AxesAreQuarterTurns(n: nat)
    ensures XAxisAt(n) == TurnTimes(PosX, n) && YAxisAt(n) == TurnTimes(PosY, n)
  {
    if n == 0 {
      assert XAxisAt(0) == PosX;
    } else {
      var m := n - 1;
      AxesAreQuarterTurns(m);
      AxesTurnEachStep(m);
      assert TurnTimes(PosX, n) == Turn(TurnTimes(PosX, m));
      assert TurnTimes(PosY, n) == Turn(TurnTimes(PosY, m));
    }
  }
}
