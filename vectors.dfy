/**
 * The 2-D vector and angle helpers the drive controller relies on (the
 * repository's Vector2 and AngleMath classes, and Math.sqrt).
 *
 * Their implementations are not part of this model. A vector is a concrete
 * Cartesian pair, so addition and scaling are exact; everything that needs
 * trigonometry or a square root is an uninterpreted function carried in a
 * `Primitives` record, and `Lawful` lists the only facts about them that the
 * proofs use.
 */
module Vectors {

  /** Vector2: a Cartesian pair. */
  datatype Vec = Vec(x: real, y: real)

  /** Vector2.add */
  function Add(a: Vec, b: Vec): Vec
  {
    Vec(a.x + b.x, a.y + b.y)
  }

  /** Vector2.multiply: scaling by a scalar. */
  function Multiply(v: Vec, k: real): Vec
  {
    Vec(v.x * k, v.y * k)
  }

  function Abs(r: real): real
  {
    if r < 0.0 then -r else r
  }

  /**
   * The helpers whose bodies are not part of this model:
   *   magnitude        Vector2.getMagnitude
   *   withMagnitude    Vector2.withMagnitude (same direction, new length)
   *   fromAngleAndMag  Vector2.fromAngleAndMag (polar construction, degrees)
   *   angleDeg         Vector2.getAngleDeg
   *   turnAngleDeg     Vector2.getTurnAngleDeg (the heading a module steers to)
   *   conformAngle     AngleMath.conformAngle (normalise into one 360-degree window)
   *   deltaReversable  AngleMath.getDeltaReversable (heading error of a module)
   *   sqrt             Math.sqrt
   *   invSqrt2         the value of 1.0 / Math.sqrt(2)
   */
  datatype Primitives = Primitives(
    magnitude: Vec -> real,
    withMagnitude: (Vec, real) -> Vec,
    fromAngleAndMag: (real, real) -> Vec,
    angleDeg: Vec -> real,
    turnAngleDeg: Vec -> real,
    conformAngle: real -> real,
    deltaReversable: (real, real) -> real,
    sqrt: real -> real,
    invSqrt2: real)

  /** invSqrt2 is 1 / sqrt 2: positive, and its square is one half. */
  predicate UnitDiagonal(p: Primitives)
  {
    p.invSqrt2 > 0.0 && p.invSqrt2 * p.invSqrt2 == 0.5
  }

  /** The facts about the vector helpers that the controller's reasoning rests on. */
  ghost predicate Lawful(p: Primitives)
  {
    && (forall v: Vec :: p.magnitude(v) >= 0.0)
    && (forall a: real, m: real :: p.magnitude(p.fromAngleAndMag(a, m)) == Abs(m))
    && (forall v: Vec, m: real :: m >= 0.0 ==> p.magnitude(p.withMagnitude(v, m)) == m)
    && (forall v: Vec, m: real :: m > 0.0 && p.magnitude(v) > 0.0 ==>
          p.angleDeg(p.withMagnitude(v, m)) == p.angleDeg(v) &&
          p.turnAngleDeg(p.withMagnitude(v, m)) == p.turnAngleDeg(v))
  }
}
