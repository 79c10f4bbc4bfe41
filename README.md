# Fibonacci spiral generator

A Dafny model of the Grasshopper component `SpiralMaker`. Its
`SolveInstance` reads one integer, the number of Fibonacci steps N. It
rejects N < 1 with an error message, and clamps N > 50 to 50 with a warning.
It then fills a table of Fibonacci numbers in 64-bit `long`s using an
iterative two-variable recurrence. For each step n = 1 .. N it:

- looks up an exact cardinal axis pair in a 4-entry table indexed by n % 4;
- builds a square of side F(n) at the running origin;
- builds a quarter-circle arc from the square's first corner to its opposite
  corner, leaving along the step's x-axis;
- moves the origin to that opposite corner.

Finally it appends the arcs, in order, to one `PolyCurve`, the spiral.

Modules, one per component:

- `Geometry` (`geometry.dfy`): integer points and vectors in the XY plane, and
  the four cardinal directions as the datatype `Dir`.
- `Fibonacci` (`fibonacci.dfy`): the mathematical `Fib`, C# `long` as the
  newtype `i64` with wrap-around addition, and the table loop as a method
  over an `array<i64>`.
- `Axes` (`axes.dfy`): the tables `xAxes` and `yAxes` and their rotation
  properties.
- `StepBuilder` (`step_builder.dfy`): one step's square, arc and next origin.
- `Spiral` (`spiral.dfy`): validation, the step loop, the `PolyCurve` class,
  and the properties of the whole spiral.

Coordinates are `int`. The source computes them in `double`, but every
value involved is an integer of magnitude below 2^53, which a `double` holds
exactly. `Spiral.CornersExactInDouble` proves this for the side length
`double scale = fib[n]`, and so for the offsets `xAxis * scale` and
`yAxis * scale`, whose components are 0 or plus or minus the side. It also
proves it for every corner. So each sum computed in the loop is exact, and the
integer model matches the source's arithmetic. The z coordinate is always 0 and is not modelled.

An arc is recorded by the arguments of `new Arc(start, tangent, end)` together
with the centre and radius of its circle. `StepBuilder.ArcDeterminedByItsArguments`
shows that these are the only centre and radius consistent with those three
arguments. So the record says no more than Rhino's constructor determines.

Step 1 uses table index 1 = (+Y, -X), so the origin after step 1 is
(-1, 1); `Spiral.ThreeSteps` states the origins (-1, 1), (-2, 0), (0, -2)
after steps 1 to 3.

## Model

| member | source | states |
|---|---|---|
| `Spiral.Solve` | SpiralMaker.cs:64-173 | no input gives no message and no output; N < 1 gives exactly the error "Steps must be at least 1" and no output; N > 50 gives exactly the warning "Steps clamped to 50" and the outputs for 50 steps; 1 <= N <= 50 gives no message and the outputs for N steps |
| `Spiral.Generate` | SpiralMaker.cs:119-155 | the step loop produces exactly the squares `Rectangles(N)` and arcs given by the functions `Rectangles(N)` and `Arcs(N)`: N of each, in step order, each built from origin `OriginAt(n-1)`, side F(n) and the axes of step n |
| `Spiral.JoinArcs` | SpiralMaker.cs:169-171 | the spiral's segments are the arcs, every one once, in generation order, with none dropped, merged or reordered |
| `Spiral.PolyCurve.constructor` | SpiralMaker.cs:169 | a new curve has no segments |
| `Spiral.PolyCurve.Append` | SpiralMaker.cs:171 | appending adds the arc at the end and changes nothing else (no tolerance test) |
| `Spiral.Rectangles` | SpiralMaker.cs:121-144 | the square list after n steps has length n, and entry k is the square of step k + 1 |
| `Spiral.Arcs` | SpiralMaker.cs:122-151 | the arc list after n steps has length n, and entry k is the arc of step k + 1 |
| `Spiral.StepIsSquareAndQuarterArc` | SpiralMaker.cs:124-154 | step n builds a counter-clockwise square of side F(n) >= 1 whose first edge runs along the step's x-axis, and a quarter arc of radius F(n) centred on corner pt3 that runs from the origin before the step to the origin after it |
| `Spiral.ArcEndpoints` | SpiralMaker.cs:137-154 | arc k + 1 starts at the origin after k steps and ends at the origin after k + 1 steps |
| `Spiral.ArcsChain` | SpiralMaker.cs:151-171 | every arc of the spiral starts exactly at the end point of the arc before it |
| `Spiral.SpiralEnds` | SpiralMaker.cs:119-154 | the spiral starts at (0, 0) and ends at the origin left by the last step |
| `Spiral.RadiiSum` | SpiralMaker.cs:46-51 | the radii of the N arcs add up to F(N + 2) - 1, so the joined spiral is (pi / 2)(F(N + 2) - 1) long, the sum of the arcs' lengths |
| `Spiral.OriginWithin` | SpiralMaker.cs:119-154 | after n steps each coordinate of the origin is at most F(1) + ... + F(n) in magnitude |
| `Spiral.CornersWithin` | SpiralMaker.cs:137-140 | every corner of step n lies within F(1) + ... + F(n) of (0, 0) in each coordinate |
| `Spiral.CornersExactInDouble` | SpiralMaker.cs:96-100 | for N <= 50 the side F(n), and so every offset `axis * scale`, and every corner, and so every arc's start, end and centre, are integers below 2^53 in magnitude, which a `double` holds exactly |
| `Spiral.SideExactInDouble` | SpiralMaker.cs:126 | every Fibonacci number up to F(52), so every side length converted to `double`, is below 2^53 |
| `Spiral.ThreeSteps` | SpiralMaker.cs:102-105 | with the axis table as written, the origin goes (0, 0), (-1, 1), (-2, 0), (0, -2) over the first three steps |
| `Fibonacci.FibonacciTable` | SpiralMaker.cs:85-93 | the table has N + 1 slots, slot 0 is 0, and every slot i with 1 <= i <= 92 holds exactly the i-th Fibonacci number |
| `Fibonacci.AddLong` | SpiralMaker.cs:90 | `a + b` on `long` is the exact sum whenever that fits in a `long` |
| `Fibonacci.AddLongWraps` | SpiralMaker.cs:90 | whether or not it overflows, `a + b` on `long` differs from the exact sum by a multiple of 2^64 (unchecked two's-complement wrap-around) |
| `Fibonacci.NextIsFib` | SpiralMaker.cs:89-92 | one turn of the table loop: if `a` and `b` hold F(i - 1) and F(i), the `long` sum `a + b` is exactly F(i + 1) while that is within the exact range |
| `Fibonacci.NextFitsInLong` | SpiralMaker.cs:87-92 | while the table is exact, the sum `a + b` computed in the loop does not overflow a `long` |
| `Fibonacci.LongLimit` | SpiralMaker.cs:81-84 | a `long` holds F(92) but not F(93), so the table is exact exactly up to index 92 |
| `Fibonacci.FibPositive` | SpiralMaker.cs:89 | every table entry F(n), n >= 1, is at least 1, so no square or arc is degenerate |
| `Fibonacci.FibSumClosedForm` | SpiralMaker.cs:126 | the side lengths of the first n squares add up to F(n + 2) - 1 |
| `Axes.XAxisAt` | SpiralMaker.cs:106-127 | step n's x-axis is entry n % 4 of +X, +Y, -X, -Y, which is +X turned n % 4 times by +90 degrees; `AxesAreQuarterTurns` shows it is +X turned n times |
| `Axes.YAxisAt` | SpiralMaker.cs:112-128 | the y-axis of every step is its x-axis turned by +90 degrees |
| `Axes.AxesTurnEachStep` | SpiralMaker.cs:102-117 | from step n to step n + 1 both axes turn by +90 degrees counter-clockwise; the new x-axis is the old y-axis |
| `Axes.AxesPeriodFour` | SpiralMaker.cs:106-127 | the axis pairs repeat every 4 steps and the x-axis differs at each of the 3 steps in between, so the period is exactly 4 |
| `Axes.AxesAreQuarterTurns` | SpiralMaker.cs:96-111 | the table replaces the rotation exactly: the axes of step n are +X and +Y turned n times by 90 degrees |
| `Geometry.UnitIsCardinal` | SpiralMaker.cs:106-117 | every axis in the tables has length 1 and an off-axis component of exactly 0 |
| `Geometry.TurnIsRot90` | SpiralMaker.cs:102-105 | turning a direction is the exact +90 degree rotation of its vector |
| `Geometry.AlongIsScale` | SpiralMaker.cs:138-140 | the offset `axis * scale` is the unit vector scaled by `scale` |
| `StepBuilder.BuildStep` | SpiralMaker.cs:137-154 | the square has 5 points and starts and ends at the origin; the arc starts at the origin, ends at pt2, leaves along the x-axis and has radius equal to the side; the next origin is pt2 itself |
| `StepBuilder.StepSquare` | SpiralMaker.cs:130-144 | pt1 = pt0 + xAxis * F, pt2 = pt1 + yAxis * F, pt3 = pt0 + yAxis * F close a counter-clockwise square: each edge is the previous turned by +90 degrees |
| `StepBuilder.SquareSides` | SpiralMaker.cs:132-143 | all four sides of such a square have length F and consecutive sides are perpendicular |
| `StepBuilder.StepArc` | SpiralMaker.cs:146-151 | the arc is a quarter circle centred on pt3, and both its end points lie at distance F from the centre |
| `StepBuilder.ArcDeterminedByItsArguments` | SpiralMaker.cs:147-151 | the circle through the start point, tangent to the x-axis there, and through the end point has only one centre and one radius: pt3 and F |

## Left out

- Grasshopper plumbing is not modelled: the constructor's metadata, input and output registration, `DA.GetData` and `DA.SetData*`. A failed `GetData` becomes the input `None`. Runtime messages become values in the result, and the three outputs are returned rather than handed to the host.
- `Icon` and `ComponentGuid` are not modelled; they are identity and user-interface bookkeeping.
- ghFoldingInfo.cs is not part of this model. It holds only assembly metadata.
- Rhino's `Polyline`, `ToPolylineCurve`, `ArcCurve`, `Arc` and `PolyCurve` are represented by their defining data: a point list, an arc record, and a segment list. Their internal representations are not modelled. These include NURBS forms and the cases where `PolyCurve.Append` refuses a curve, which are internals of the foreign library.
- Arc lengths involving pi and any real-valued evaluation along a curve are left out because they are floating point. `Spiral.RadiiSum` states the length as a multiple of pi / 2.
- Coordinates are modelled as `int` and not as `double`. `Spiral.CornersExactInDouble` shows the two agree for at most 50 steps.
- The z coordinate is not modelled because every point lies in the world XY plane.
- The C# `int` width of the input is not modelled, because any integer above 50 is clamped the same way.
- `Fibonacci.FibonacciTable` states table entries only up to index 92. Above that the source's `long` additions wrap. The model performs the same wrapping additions (`AddLong`) but does not characterise the values, and the spiral never uses them because N is at most 50.
- Running the computation twice with the same N gives identical outputs. This is not stated as a lemma because every member of the model is a deterministic function of its inputs.
