/** The spiral assembler, `SpiralMaker.SolveInstance` (SpiralMaker.cs, lines
    64-174): validate the step count, fill the Fibonacci table, build one
    square and one arc per step while moving the origin, and append the arcs
    to one curve. */
module Spiral {
  import opened Geometry
  import opened Fibonacci
  import opened Axes
  import opened StepBuilder

  datatype Option<T> = None | Some(value: T)

  /** Step counts above this bound are clamped to it */
  const MaxSteps: nat := 50

  /** 2^53: every integer of at most this magnitude is exactly a C# `double` */
  const DoubleExact: int := 0x20_0000_0000_0000

  /** `GH_RuntimeMessageLevel` */
  datatype MessageLevel = Error | Warning

  /** A runtime message reported to the host */
  datatype RuntimeMessage = RuntimeMessage(level: MessageLevel, text: string)

  /** The three outputs "Rectangles", "Arcs" and "Spiral" */
  datatype Outputs = Outputs(rectangles: seq<Polyline>, arcs: seq<Arc>, spiral: seq<Arc>)

  /** What one solve reports and, unless it stopped early, produces */
  datatype Solution = Solution(messages: seq<RuntimeMessage>, outputs: Option<Outputs>)

  // ---------------------------------------------------------------------
  // Specification of the main loop

  /** Step n (n >= 1): side F(n), x-axis +X turned n times by +90 degrees
      and y-axis one more quarter turn, from `origin` */
  function StepFrom(n: nat, origin: Vec): Step {
    BuildStep(origin, Fib(n), TurnTimes(PosX, n), Turn(TurnTimes(PosX, n)))
  }

  /** The origin after n steps: (0, 0) at first, then each step's pt2 */
  function OriginAt(n: nat): Vec {
    if n == 0 then Origin else StepFrom(n, OriginAt(n - 1)).next
  }

  /** Step n, from the origin left by step n - 1 */
  function StepAt(n: nat): Step
    requires n >= 1
  {
    StepFrom(n, OriginAt(n - 1))
  }

  /** The squares of the first n steps, in step order */
  function Rectangles(n: nat): (r: seq<Polyline>)
    ensures |r| == n
    ensures forall k :: 0 <= k < n ==> r[k] == StepAt(k + 1).square
  {
    if n == 0 then [] else
    var prev := Rectangles(n - 1);
    var r := prev + [StepAt(n).square];
    assert forall k :: 0 <= k < n - 1 ==> r[k] == prev[k];
    r
  }

  /** The arcs of the first n steps, in step order */
  function Arcs(n: nat): (r: seq<Arc>)
    ensures |r| == n
    ensures forall k :: 0 <= k < n ==> r[k] == StepAt(k + 1).arc
  {
    if n == 0 then [] else
    var prev := Arcs(n - 1);
    var r := prev + [StepAt(n).arc];
    assert forall k :: 0 <= k < n - 1 ==> r[k] == prev[k];
    r
  }

  /** What a solve with a valid step count n outputs */
  function Expected(n: nat): Outputs {
    Outputs(Rectangles(n), Arcs(n), Arcs(n))
  }

  /** Each arc starts exactly where the previous one ends */
  predicate Chained(arcs: seq<Arc>) {
    forall k :: 0 < k < |arcs| ==> arcs[k].start == arcs[k - 1].end
  }

  /** Sum of the radii; a quarter arc of radius r has length (pi / 2) r */
  function SumRadii(arcs: seq<Arc>): int {
    if arcs == [] then 0 else SumRadii(arcs[..|arcs| - 1]) + arcs[|arcs| - 1].radius
  }

  // ---------------------------------------------------------------------
  // The curve the arcs are appended to

  /** A Rhino `PolyCurve`: its segments in order */
  class PolyCurve {
    var segments: seq<Arc>

    constructor ()
      ensures segments == []
    {
      segments := [];
    }

    /** `Append` adds the curve at the end, without any tolerance test */
    method Append(arc: Arc)
      modifies this
      ensures segments == old(segments) + [arc]
    {
      segments := segments + [arc];
    }
  }

  // ---------------------------------------------------------------------
  // The solver

  /** `SolveInstance`: `input` is what `DA.GetData` delivered, None when it
      delivered nothing. */
  method Solve(input: Option<int>) returns (sol: Solution)
    ensures input.None? ==> sol == Solution([], None)
    ensures input.Some? && input.value < 1 ==>
      sol == Solution([RuntimeMessage(Error, "Steps must be at least 1")], None)
    ensures input.Some? && input.value > MaxSteps ==>
      sol == Solution([RuntimeMessage(Warning, "Steps clamped to 50")], Some(Expected(MaxSteps)))
    ensures input.Some? && 1 <= input.value <= MaxSteps ==>
      sol == Solution([], Some(Expected(input.value)))
  {
    if input.None? {
      return Solution([], None);
    }
    var steps := input.value;
    var messages := [];
    if steps < 1 {
      return Solution([RuntimeMessage(Error, "Steps must be at least 1")], None);
    }
    if steps > MaxSteps {
      messages := [RuntimeMessage(Warning, "Steps clamped to 50")];
      steps := MaxSteps;
    }
    var rectangles, arcs := Generate(steps);
    var spiral := JoinArcs(arcs);
    sol := Solution(messages, Some(Outputs(rectangles, arcs, spiral.segments)));
  }

  /** The table loop and the step loop for a validated step count */
  method Generate(steps: nat) returns (rectangles: seq<Polyline>, arcs: seq<Arc>)
    requires steps <= MaxSteps
    ensures rectangles == Rectangles(steps) && arcs == Arcs(steps)
  {
    var fib := FibonacciTable(steps);
    var origin := Origin;
    rectangles, arcs := [], [];
    for n := 1 to steps + 1
      invariant forall i :: 1 <= i <= steps ==> fib[i] as int == Fib(i)
      invariant origin == OriginAt(n - 1)
      invariant rectangles == Rectangles(n - 1) && arcs == Arcs(n - 1)
    {
      var scale := fib[n] as int;
      var xAxis, yAxis := XAxisAt(n), YAxisAt(n);
      var step := BuildStep(origin, scale, xAxis, yAxis);
      assert scale == Fib(n);
      AxesAreQuarterTurns(n);
      StepFromIs(n, origin, scale, xAxis, yAxis);
      AppendStep(n);
      rectangles := rectangles + [step.square];
      arcs := arcs + [step.arc];
      origin := step.next;
    }
  }

  /** The join: a fresh curve with every arc appended in order */
  method JoinArcs(arcs: seq<Arc>) returns (spiral: PolyCurve)
    ensures spiral.segments == arcs
  {
    spiral := new PolyCurve();
    for i := 0 to |arcs|
      invariant spiral.segments == arcs[..i]
    {
      spiral.Append(arcs[i]);
    }
  }

  // ---------------------------------------------------------------------
  // Properties

  /** Every step builds a counter-clockwise square of side F(n) and a
      quarter arc of radius F(n) centred on the square's corner pt3. */
  lemma StepIsSquareAndQuarterArc(n: nat)
    requires n >= 1
    ensures Fib(n) >= 1
    ensures IsSquare(StepAt(n).square, Fib(n), TurnTimes(PosX, n))
    ensures IsQuarterArc(StepAt(n).arc) && StepAt(n).arc.radius == Fib(n)
    ensures StepAt(n).arc.start == OriginAt(n - 1) && StepAt(n).arc.end == OriginAt(n)
    ensures StepAt(n).arc.centre == StepAt(n).square.points[3]
  {
    FibPositive(n);
    StepSquare(OriginAt(n - 1), Fib(n), TurnTimes(PosX, n));
    StepArc(OriginAt(n - 1), Fib(n), TurnTimes(PosX, n));
  }

  /** Arc k + 1 of the spiral runs from the origin after k steps to the
      origin after k + 1 steps. */
  lemma ArcEndpoints(n: nat)
    ensures forall k :: 0 <= k < n ==> Arcs(n)[k].start == OriginAt(k) && Arcs(n)[k].end == OriginAt(k + 1)
  {
    forall k | 0 <= k < n
      ensures Arcs(n)[k].start == OriginAt(k) && Arcs(n)[k].end == OriginAt(k + 1)
    {
      StepEnds(k + 1);
    }
  }

  /** The spiral is continuous: each arc starts exactly at the end of the
      one before. */
  lemma ArcsChain(n: nat)
    ensures Chained(Arcs(n))
  {
    ArcEndpoints(n);
  }

  /** The spiral starts at (0, 0) and ends at the origin left by the last
      step. */
  lemma SpiralEnds(n: nat)
    requires n >= 1
    ensures Arcs(n)[0].start == Origin && Arcs(n)[n - 1].end == OriginAt(n)
  {
    SpiralStart(n);
    SpiralEnd(n);
  }

  lemma SpiralStart(n: nat)
    requires n >= 1
    ensures Arcs(n)[0].start == Origin
  {
    ArcEndpoints(n);
  }

  lemma SpiralEnd(n: nat)
    requires n >= 1
    ensures Arcs(n)[n - 1].end == OriginAt(n)
  {
    ArcEndpoints(n);
  }

  lemma StepFromIs(n: nat, origin: Vec, scale: int, xAxis: Dir, yAxis: Dir)
    requires n >= 1 && origin == OriginAt(n - 1) && scale == Fib(n)
    requires xAxis == TurnTimes(PosX, n) && yAxis == Turn(xAxis)
    ensures BuildStep(origin, scale, xAxis, yAxis) == StepAt(n)
  {
  }

  /** Arc n runs from the origin before step n to the origin after it. */
  lemma StepEnds(n: nat)
    requires n >= 1
    ensures StepAt(n).arc.start == OriginAt(n - 1) && StepAt(n).arc.end == OriginAt(n)
  {
  }

  lemma AppendStep(n: nat)
    requires n >= 1
    ensures Rectangles(n) == Rectangles(n - 1) + [StepAt(n).square]
    ensures Arcs(n) == Arcs(n - 1) + [StepAt(n).arc]
  {
  }

  /** The radii of the spiral's arcs add up to F(n + 2) - 1, so the spiral
      is (pi / 2) (F(n + 2) - 1) long. */
  lemma RadiiSum(n: nat)
    ensures SumRadii(Arcs(n)) == Fib(n + 2) - 1
  {
    RadiiAreFibSum(n);
    FibSumClosedForm(n);
  }

  lemma {:induction false} RadiiAreFibSum(n: nat)
    ensures SumRadii(Arcs(n)) == FibSum(n)
  {
    if n > 0 {
      var arcs := Arcs(n);
      RadiiAreFibSum(n - 1);
      assert arcs[..n - 1] == Arcs(n - 1);
      assert arcs[n - 1].radius == Fib(n);
      assert SumRadii(arcs) == SumRadii(Arcs(n - 1)) + Fib(n);
      assert FibSum(n) == FibSum(n - 1) + Fib(n);
    }
  }

  /** One step moves the origin by F(n) in x and by F(n) in y, and keeps its
      other corners within the same distance of the old origin. */
  lemma StepMovesBy(n: nat, b: int)
    requires n >= 1 && WithinBound(OriginAt(n - 1), b)
    ensures forall k :: 0 <= k < 5 ==> WithinBound(StepAt(n).square.points[k], b + Fib(n))
    ensures WithinBound(OriginAt(n), b + Fib(n))
  {
    var s := StepAt(n);
    assert s.square.points[3] == s.arc.centre;
    match TurnTimes(PosX, n)
    case PosX =>
    case PosY =>
    case NegX =>
    case NegY =>
  }

  /** After n steps the origin lies within F(1) + ... + F(n) of (0, 0) in
      each coordinate. */
  lemma {:induction false} OriginWithin(n: nat)
    ensures WithinBound(OriginAt(n), FibSum(n))
  {
    if n > 0 {
      var b := FibSum(n - 1);
      assert FibSum(n) == b + Fib(n);
      OriginWithin(n - 1);
      StepMovesBy(n, b);
    }
  }

  /** Every corner built in step n lies within F(1) + ... + F(n) of (0, 0). */
  lemma CornersWithin(n: nat)
    requires n >= 1
    ensures forall k :: 0 <= k < 5 ==> WithinBound(StepAt(n).square.points[k], FibSum(n))
  {
    var b := FibSum(n - 1);
    assert FibSum(n) == b + Fib(n);
    OriginWithin(n - 1);
    StepMovesBy(n, b);
  }

  /** For at most 50 steps every corner, and so every arc's start, end and
      centre, has integer coordinates of magnitude below 2^53, which a C#
      `double` represents exactly: the sums computed in the loop are exact. */
  lemma CornersExactInDouble(n: nat)
    requires 1 <= n <= MaxSteps
    ensures Fib(n) < DoubleExact
    ensures forall k :: 0 <= k < 5 ==> WithinBound(StepAt(n).square.points[k], DoubleExact - 1)
  {
    SideExactInDouble(n + 2);
    SideExactInDouble(n);
    CornersWithin(n);
    FibSumClosedForm(n);
  }

  /** Every Fibonacci number up to F(52) lies below 2^53. */
  lemma SideExactInDouble(n: nat)
    requires n <= MaxSteps + 2
    ensures Fib(n) < DoubleExact
  {
    FibMonotone(n, 52);
    FibBelowPow2(52);
    Pow2Value52();
  }

  /** Three steps: the origin moves (0, 0), (-1, 1), (-2, 0), (0, -2). */
  lemma ThreeSteps()
    ensures OriginAt(1) == Vec(-1, 1) && OriginAt(2) == Vec(-2, 0) && OriginAt(3) == Vec(0, -2)
  {
    FirstOrigin();
    CornerOne();
    SecondOrigin();
    CornerTwo();
    ThirdOrigin();
    CornerThree();
  }

  lemma FirstOrigin()
    ensures OriginAt(1) == BuildStep(Origin, 1, PosY, NegX).next
  {
    FibValues1to3();
    assert TurnTimes(PosX, 1) == PosY;
  }

  lemma SecondOrigin()
    ensures OriginAt(2) == BuildStep(OriginAt(1), 1, NegX, NegY).next
  {
    FibValues1to3();
    assert TurnTimes(PosX, 2) == NegX;
  }

  lemma ThirdOrigin()
    ensures OriginAt(3) == BuildStep(OriginAt(2), 2, NegY, PosX).next
  {
    FibValues1to3();
    assert TurnTimes(PosX, 3) == NegY;
  }

  lemma CornerOne()
    ensures BuildStep(Origin, 1, PosY, NegX).next == Vec(-1, 1)
  {
  }

  lemma CornerTwo()
    ensures BuildStep(Vec(-1, 1), 1, NegX, NegY).next == Vec(-2, 0)
  {
  }

  lemma CornerThree()
    ensures BuildStep(Vec(-2, 0), 2, NegY, PosX).next == Vec(0, -2)
  {
  }
}
