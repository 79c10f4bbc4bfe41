/** One step of the spiral (SpiralMaker.cs, lines 126-154): the square of
    side F(n) at the current origin, the quarter-circle arc inscribed in it,
    and the corner that becomes the next origin. */
module StepBuilder {
  import opened Geometry

  /** A Rhino `Polyline`: its vertices in order */
  datatype Polyline = Polyline(points: seq<Vec>)

  /** The arc `new Arc(start, tangent, end)`, recorded with the three
      arguments it was built from and the centre and radius of its circle
      (`ArcDeterminedByItsArguments` shows that no other circle fits them). */
  datatype Arc = Arc(start: Vec, tangent: Dir, end: Vec, centre: Vec, radius: int)

  /** What one step produces: the square, the arc, and the next origin */
  datatype Step = Step(square: Polyline, arc: Arc, next: Vec)

  /** The corners pt0 .. pt3 of the square at `origin` with side `scale`,
      the closed polyline pt0, pt1, pt2, pt3, pt0, the arc from pt0 to pt2
      leaving along `xAxis`, and pt2 as the next origin. */
  function BuildStep(origin: Vec, scale: int, xAxis: Dir, yAxis: Dir): (s: Step)
    ensures |s.square.points| == 5
    ensures s.square.points[0] == s.square.points[4] == s.arc.start == origin
    ensures s.square.points[2] == s.arc.end == s.next
    ensures s.arc.tangent == xAxis && s.arc.radius == scale
  {
    var pt0 := origin;
    var pt1 := Add(pt0, Along(xAxis, scale));
    var pt2 := Add(pt1, Along(yAxis, scale));
    var pt3 := Add(pt0, Along(yAxis, scale));
    Step(Polyline([pt0, pt1, pt2, pt3, pt0]), Arc(pt0, xAxis, pt2, pt3, scale), pt2)
  }

  /** Edge k of a polyline, from vertex k to vertex k + 1 */
  function Edge(p: Polyline, k: nat): Vec
    requires k + 1 < |p.points|
  {
    Sub(p.points[k + 1], p.points[k])
  }

  /** `p` is a closed square traversed counter-clockwise: five vertices, the
      last equal to the first, a first edge of `side` along `xAxis`, and each
      further edge the previous one turned by +90 degrees. */
  predicate IsSquare(p: Polyline, side: int, xAxis: Dir) {
    && |p.points| == 5
    && p.points[4] == p.points[0]
    && Edge(p, 0) == Along(xAxis, side)
    && Edge(p, 1) == Rot90(Edge(p, 0))
    && Edge(p, 2) == Rot90(Edge(p, 1))
    && Edge(p, 3) == Rot90(Edge(p, 2))
  }

  /** `a` is a quarter of a circle of positive radius: it leaves `start`
      along `tangent` with the centre on its left, and `end` is `start`
      turned by exactly +90 degrees about the centre. */
  predicate IsQuarterArc(a: Arc) {
    && a.radius > 0
    && Sub(a.centre, a.start) == Along(Turn(a.tangent), a.radius)
    && Sub(a.end, a.centre) == Rot90(Sub(a.start, a.centre))
  }

  /** With a y-axis that is the x-axis turned by +90 degrees, a step builds
      a counter-clockwise square of side `scale` whose first edge runs along
      the x-axis. */
  lemma StepSquare(origin: Vec, scale: int, xAxis: Dir)
    ensures IsSquare(BuildStep(origin, scale, xAxis, Turn(xAxis)).square, scale, xAxis)
  {
    match xAxis
    case PosX =>
    case PosY =>
    case NegX =>
    case NegY =>
  }

  /** With a positive side the arc is a quarter circle of radius `scale`
      centred on the square's fourth corner pt3, with both end points on
      that circle. */
  lemma StepArc(origin: Vec, scale: int, xAxis: Dir)
    requires scale > 0
    ensures var s := BuildStep(origin, scale, xAxis, Turn(xAxis));
      && IsQuarterArc(s.arc)
      && s.arc.centre == s.square.points[3]
      && NormSq(Sub(s.arc.start, s.arc.centre)) == scale * scale
      && NormSq(Sub(s.arc.end, s.arc.centre)) == scale * scale
  {
    var s := BuildStep(origin, scale, xAxis, Turn(xAxis));
    assert IsQuarterArc(s.arc) by {
      match xAxis
      case PosX =>
      case PosY =>
      case NegX =>
      case NegY =>
    }
    assert Sub(s.arc.start, s.arc.centre) == Add(Along(xAxis, 0), Along(Turn(xAxis), -scale)) by {
      match xAxis
      case PosX =>
      case PosY =>
      case NegX =>
      case NegY =>
    }
    NormSqInFrame(xAxis, 0, -scale);
    assert Sub(s.arc.end, s.arc.centre) == Add(Along(xAxis, scale), Along(Turn(xAxis), 0)) by {
      match xAxis
      case PosX =>
      case PosY =>
      case NegX =>
      case NegY =>
    }
    NormSqInFrame(xAxis, scale, 0);
  }

  /** Every side of such a square has length `side`, and consecutive sides
      meet at right angles. */
  lemma SquareSides(p: Polyline, side: int, xAxis: Dir)
    requires IsSquare(p, side, xAxis)
    ensures forall k :: 0 <= k < 4 ==> NormSq(Edge(p, k)) == side * side
    ensures forall k :: 0 <= k < 3 ==> Dot(Edge(p, k), Edge(p, k + 1)) == 0
    ensures Dot(Edge(p, 3), Edge(p, 0)) == 0
  {
    var e := Edge(p, 0);
    NormSqInFrame(xAxis, side, 0);
    assert e == Add(Along(xAxis, side), Along(Turn(xAxis), 0));
    TurnKeepsLength(e);
    TurnKeepsLength(Rot90(e));
    TurnKeepsLength(Rot90(Rot90(e)));
    assert Rot90(Rot90(Rot90(Rot90(e)))) == e;
  }

  /** Rhino's `Arc(start, tangent, end)` is the circle through `start`
      tangent to `tangent` there and passing through `end`. For a quarter arc
      that circle is unique: any centre `c` on the normal at `start` and any
      radius `r` that reach both end points are the arc's own. */
  lemma ArcDeterminedByItsArguments(a: Arc, c: Vec, r: int)
    requires IsQuarterArc(a)
    requires r >= 0 && Dot(Sub(c, a.start), Unit(a.tangent)) == 0
    requires NormSq(Sub(a.start, c)) == r * r && NormSq(Sub(a.end, c)) == r * r
    ensures c == a.centre && r == a.radius
  {
    var t, R := a.tangent, a.radius;
    var k := Dot(Sub(c, a.start), Unit(Turn(t)));
    PerpendicularToDir(t, Sub(c, a.start));
    assert Sub(c, a.start) == Along(Turn(t), k);
    // start - c is -k along the normal, end - c is R along t and R - k along the normal
    assert Sub(a.start, c) == Add(Along(t, 0), Along(Turn(t), -k)) by {
      match t
      case PosX =>
      case PosY =>
      case NegX =>
      case NegY =>
    }
    NormSqInFrame(t, 0, -k);
    assert -k * -k == k * k;
    assert Sub(a.end, c) == Add(Along(t, R), Along(Turn(t), R - k)) by {
      match t
      case PosX =>
      case PosY =>
      case NegX =>
      case NegY =>
    }
    NormSqInFrame(t, R, R - k);
    SameRadius(R, k, r);
    assert c == a.centre;
  }

  /** k^2 = r^2 and R^2 + (R - k)^2 = r^2 with R > 0 and r >= 0 force k = r = R. */
  lemma SameRadius(R: int, k: int, r: int)
    requires R > 0 && r >= 0
    requires k * k == r * r
    requires R * R + (R - k) * (R - k) == r * r
    ensures k == R && r == R
  {
    assert (R - k) * (R - k) == R * R - 2 * R * k + k * k;
    assert 2 * R * (R - k) == 0;
    assert R - k == 0;
    assert (r - R) * (r + R) == 0;
  }
}
