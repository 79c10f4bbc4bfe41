/** Points and direction vectors of the construction plane.

    Every point the spiral generator builds lies in the world XY plane, so
    Rhino's `Point3d` and `Vector3d` become a pair of coordinates, and the
    only directions it uses are the four cardinal unit vectors, which become
    the datatype `Dir`. Coordinates are exact integers (see
    `Spiral.CornersExactInDouble` for why the source's doubles hold them
    exactly). */
module Geometry {

  datatype Vec = Vec(x: int, y: int)

  /** `Point3d.Origin` */
  const Origin := Vec(0, 0)

  /** A cardinal unit vector: `Vector3d.XAxis`, `Vector3d.YAxis` or the
      negation of one of them */
  datatype Dir = PosX | PosY | NegX | NegY

  function Add(p: Vec, v: Vec): Vec { Vec(p.x + v.x, p.y + v.y) }

  function Sub(p: Vec, q: Vec): Vec { Vec(p.x - q.x, p.y - q.y) }

  function Scale(v: Vec, s: int): Vec { Vec(v.x * s, v.y * s) }

  function Dot(u: Vec, v: Vec): int { u.x * v.x + u.y * v.y }

  /** Squared Euclidean length */
  function NormSq(v: Vec): int { Dot(v, v) }

  /** `v` turned by +90 degrees (counter-clockwise) about the z-axis */
  function Rot90(v: Vec): Vec { Vec(-v.y, v.x) }

  /** Both coordinates lie in [-bound, bound] */
  predicate WithinBound(v: Vec, bound: int) {
    -bound <= v.x <= bound && -bound <= v.y <= bound
  }

  /** The vector a direction stands for: length 1, off-axis component 0 */
  function Unit(d: Dir): Vec {
    match d
    case PosX => Vec(1, 0)
    case PosY => Vec(0, 1)
    case NegX => Vec(-1, 0)
    case NegY => Vec(0, -1)
  }

  /** The direction +90 degrees from `d` */
  function Turn(d: Dir): Dir {
    match d
    case PosX => PosY
    case PosY => NegX
    case NegX => NegY
    case NegY => PosX
  }

  /** `d * s`: the unit vector of `d` scaled by `s` */
  function Along(d: Dir, s: int): Vec {
    match d
    case PosX => Vec(s, 0)
    case PosY => Vec(0, s)
    case NegX => Vec(-s, 0)
    case NegY => Vec(0, -s)
  }

  /** `Turn` is the +90 degree rotation of the direction's vector. */
  lemma TurnIsRot90(d: Dir)
    ensures Unit(Turn(d)) == Rot90(Unit(d))
  {
  }

  /** A direction's vector has length 1 and off-axis component exactly 0. */
  lemma UnitIsCardinal(d: Dir)
    ensures NormSq(Unit(d)) == 1 && (Unit(d).x == 0 || Unit(d).y == 0)
  {
  }

  /** `Along` is the product of the direction's vector and the scalar. */
  lemma AlongIsScale(d: Dir, s: int)
    ensures Along(d, s) == Scale(Unit(d), s)
  {
  }

  /** Turning a vector keeps its length and makes it perpendicular to where
      it was. */
  lemma TurnKeepsLength(v: Vec)
    ensures NormSq(Rot90(v)) == NormSq(v) && Dot(v, Rot90(v)) == 0
  {
    assert (-v.y) * (-v.y) == v.y * v.y;
    assert v.x * (-v.y) == -(v.y * v.x);
  }

  /** A vector perpendicular to a direction `t` is a multiple of `t` turned. */
  lemma PerpendicularToDir(t: Dir, p: Vec)
    requires Dot(p, Unit(t)) == 0
    ensures p == Along(Turn(t), Dot(p, Unit(Turn(t))))
  {
  }

  /** In the frame of `t` and its turn, squared length is the sum of the
      squared coordinates. */
  lemma NormSqInFrame(t: Dir, a: int, b: int)
    ensures NormSq(Add(Along(t, a), Along(Turn(t), b))) == a * a + b * b
  {
    match t
    case PosX =>
    case PosY =>
    case NegX =>
      assert (-a) * (-a) == a * a;
      assert (-b) * (-b) == b * b;
    case NegY =>
      assert (-a) * (-a) == a * a;
      assert (-b) * (-b) == b * b;
  }
}
