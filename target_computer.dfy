/**
 * The pure part of PathPlannerDrive.power: the range check on its
 * arguments, the per-quadrant turn vectors, the raw module targets and the
 * proportional clamp to the 12-volt supply.
 *
 * Quadrants are numbered 1 = front-right, 2 = front-left, 3 = back-left,
 * 4 = back-right, and target index q - 1 belongs to quadrant q.
 */
module TargetComputer {
  import opened Wrappers
  import opened Vectors

  /** The supply ceiling, in volts. */
  const MaxVoltage: real := 12.0

  /** Math.PI taken as the real number its double literal denotes. */
  const Pi: real := 3.141592653589793

  /** The two exceptions power throws, one per offending argument. */
  datatype PowerFault = GoVoltageTooLarge | TurnVoltageTooLarge

  /**
   * The range check at the top of power. It looks at the raw arguments,
   * the go speed first; the turn rate is checked before it is converted.
   */
  function VoltageCheck(goSpeed: real, turnVelocity: real, errorOnLargeVoltage: bool): (r: Option<PowerFault>)
    ensures r.Some? <==> errorOnLargeVoltage && (Abs(goSpeed) > MaxVoltage || Abs(turnVelocity) > MaxVoltage)
    ensures r == Some(GoVoltageTooLarge) <==> errorOnLargeVoltage && Abs(goSpeed) > MaxVoltage
  {
    if !errorOnLargeVoltage then None
    else if Abs(goSpeed) > MaxVoltage then Some(GoVoltageTooLarge)
    else if Abs(turnVelocity) > MaxVoltage then Some(TurnVoltageTooLarge)
    else None
  }

  /**
   * getTurnVec: the direction a module moves when the robot spins, one of
   * the four diagonals (+-1/sqrt 2, +-1/sqrt 2). x is negative in quadrants
   * 1 and 2, y is negative in quadrants 2 and 3.
   */
  function TurnVec(p: Primitives, quadrant: int): (r: Vec)
    ensures r.x == p.invSqrt2 || r.x == -p.invSqrt2
    ensures r.y == p.invSqrt2 || r.y == -p.invSqrt2
  {
    var side := p.invSqrt2;
    Vec(if quadrant == 1 || quadrant == 2 then -side else side,
        if quadrant == 2 || quadrant == 3 then -side else side)
  }

  /** The sign pattern of each quadrant, with s = 1 / sqrt 2. */
  lemma TurnVecQuadrants(p: Primitives)
    ensures var s := p.invSqrt2;
      && TurnVec(p, 1) == Vec(-s, s)
      && TurnVec(p, 2) == Vec(-s, -s)
      && TurnVec(p, 3) == Vec(s, -s)
      && TurnVec(p, 4) == Vec(s, s)
  {
  }

  /** Diagonally opposite modules turn in opposite directions. */
  lemma TurnVecOpposite(p: Primitives, quadrant: int)
    requires quadrant == 1 || quadrant == 2
    ensures TurnVec(p, quadrant + 2) == Multiply(TurnVec(p, quadrant), -1.0)
  {
  }

  /** Together the four turn vectors cancel: a pure spin has no net translation. */
  lemma TurnVecsCancel(p: Primitives)
    ensures Add(Add(TurnVec(p, 1), TurnVec(p, 2)), Add(TurnVec(p, 3), TurnVec(p, 4))) == Vec(0.0, 0.0)
  {
  }

  /** Every turn vector has unit length. */
  lemma TurnVecUnitLength(p: Primitives, quadrant: int)
    requires UnitDiagonal(p)
    ensures var v := TurnVec(p, quadrant); v.x * v.x + v.y * v.y == 1.0
  {
    var s := p.invSqrt2;
    assert (-s) * (-s) == s * s;
  }

  /** The four quadrants get four different turn vectors. */
  lemma TurnVecsDistinct(p: Primitives, q1: int, q2: int)
    requires UnitDiagonal(p)
    requires 1 <= q1 < q2 <= 4
    ensures TurnVec(p, q1) != TurnVec(p, q2)
  {
  }

  /**
   * The turn rate (degrees per second) converted to the linear speed of a
   * module at the corner of a width x length robot. Math.pow(x, 2) is x * x.
   */
  function TurnSpeed(p: Primitives, widthInches: real, lengthInches: real, turnVelocity: real): real
  {
    turnVelocity / 180.0 * Pi
      * p.sqrt((widthInches / 2.0) * (widthInches / 2.0) + (lengthInches / 2.0) * (lengthInches / 2.0))
  }

  /** The go vector plus the scaled turn vector of one quadrant, before saturation. */
  function RawTarget(p: Primitives, widthInches: real, lengthInches: real,
                     goSpeed: real, goDirectionDeg: real, turnVelocity: real, quadrant: int): Vec
  {
    var turnVec := Multiply(TurnVec(p, quadrant), TurnSpeed(p, widthInches, lengthInches, turnVelocity));
    var goVec := p.fromAngleAndMag(p.conformAngle(goDirectionDeg), goSpeed);
    Add(goVec, turnVec)
  }

  /** The four raw targets, index q - 1 for quadrant q. */
  function RawTargets(p: Primitives, widthInches: real, lengthInches: real,
                      goSpeed: real, goDirectionDeg: real, turnVelocity: real): (r: seq<Vec>)
    ensures |r| == 4
    ensures forall k :: 0 <= k < 4 ==>
      r[k] == RawTarget(p, widthInches, lengthInches, goSpeed, goDirectionDeg, turnVelocity, k + 1)
  {
    seq(4, k => RawTarget(p, widthInches, lengthInches, goSpeed, goDirectionDeg, turnVelocity, k + 1))
  }

  /** With no turn requested every module gets the same go vector. */
  lemma NoTurnSameTargets(p: Primitives, widthInches: real, lengthInches: real,
                          goSpeed: real, goDirectionDeg: real, k: int)
    requires 0 <= k < 4
    ensures RawTargets(p, widthInches, lengthInches, goSpeed, goDirectionDeg, 0.0)[k]
         == p.fromAngleAndMag(p.conformAngle(goDirectionDeg), goSpeed)
  {
    var goVec := p.fromAngleAndMag(p.conformAngle(goDirectionDeg), goSpeed);
    var speed := TurnSpeed(p, widthInches, lengthInches, 0.0);
    assert speed == 0.0;
    assert Multiply(TurnVec(p, k + 1), speed) == Vec(0.0, 0.0);
    assert Add(goVec, Vec(0.0, 0.0)) == Vec(goVec.x, goVec.y) == goVec;
  }

  /**
   * The largest absolute magnitude among the targets, found as power's
   * loop finds it: start from 0 and keep any strictly larger value.
   */
  function Largest(p: Primitives, ts: seq<Vec>): (r: real)
    ensures r >= 0.0
    ensures forall i :: 0 <= i < |ts| ==> Abs(p.magnitude(ts[i])) <= r
    ensures r == 0.0 || exists i :: 0 <= i < |ts| && r == Abs(p.magnitude(ts[i]))
    decreases |ts|
  {
    if ts == [] then 0.0
    else
      var front := ts[..|ts| - 1];
      var m := Largest(p, front);
      var a := Abs(p.magnitude(ts[|ts| - 1]));
      assert forall i :: 0 <= i < |front| ==> front[i] == ts[i];
      if a > m then a else m
  }

  /** One target with its magnitude multiplied by fac (Vector2.withMagnitude). */
  function Scaled(p: Primitives, v: Vec, fac: real): Vec
  {
    p.withMagnitude(v, p.magnitude(v) * fac)
  }

  /** Every target scaled by one common factor. */
  function ScaleAll(p: Primitives, ts: seq<Vec>, fac: real): (r: seq<Vec>)
    ensures |r| == |ts|
    ensures forall i :: 0 <= i < |ts| ==> r[i] == Scaled(p, ts[i], fac)
  {
    seq(|ts|, i requires 0 <= i < |ts| => Scaled(p, ts[i], fac))
  }

  /** The common factor of the clamp. */
  function ClampFactor(largest: real): real
    requires largest > MaxVoltage
  {
    MaxVoltage / largest
  }

  /**
   * The saturation step of power: if some target is over the ceiling, all
   * targets are shrunk by one common factor; otherwise none is touched.
   */
  function Saturate(p: Primitives, ts: seq<Vec>): (r: seq<Vec>)
    ensures |r| == |ts|
    ensures Largest(p, ts) <= MaxVoltage ==> r == ts
  {
    Clamp(p, ts, Largest(p, ts))
  }

  /** Saturation for a given largest magnitude. */
  function Clamp(p: Primitives, ts: seq<Vec>, largest: real): (r: seq<Vec>)
    ensures |r| == |ts|
  {
    if largest > MaxVoltage then ScaleAll(p, ts, ClampFactor(largest)) else ts
  }

  /** The clamp factor lies strictly between 0 and 1. */
  lemma FactorRange(largest: real)
    requires largest > MaxVoltage
    ensures 0.0 < ClampFactor(largest) < 1.0
    ensures largest * ClampFactor(largest) == MaxVoltage
  {
  }

  lemma NonnegativeProduct(a: real, b: real)
    requires a >= 0.0 && b >= 0.0
    ensures a * b >= 0.0
  {
  }

  lemma PositiveProduct(a: real, b: real)
    requires a > 0.0 && b > 0.0
    ensures a * b > 0.0
  {
  }

  /** Scaling by a positive factor multiplies the magnitude by it. */
  lemma ScaledMagnitude(p: Primitives, v: Vec, fac: real)
    requires Lawful(p)
    requires fac > 0.0
    ensures p.magnitude(Scaled(p, v, fac)) == p.magnitude(v) * fac
  {
    NonnegativeProduct(p.magnitude(v), fac);
  }

  /** Scaling a nonzero vector by a positive factor keeps its heading. */
  lemma ScaledHeading(p: Primitives, v: Vec, fac: real)
    requires Lawful(p)
    requires fac > 0.0 && p.magnitude(v) > 0.0
    ensures p.angleDeg(Scaled(p, v, fac)) == p.angleDeg(v)
    ensures p.turnAngleDeg(Scaled(p, v, fac)) == p.turnAngleDeg(v)
  {
    PositiveProduct(p.magnitude(v), fac);
  }

  /** Clamping by the factor of a bound every target respects lands within the ceiling. */
  lemma ClampedWithinSupply(p: Primitives, v: Vec, largest: real)
    requires Lawful(p)
    requires largest > MaxVoltage
    requires Abs(p.magnitude(v)) <= largest
    ensures Abs(p.magnitude(Scaled(p, v, ClampFactor(largest)))) <= MaxVoltage
  {
    FactorRange(largest);
    ScaledWithin(p, v, largest, ClampFactor(largest));
  }

  /** After saturation no target exceeds the ceiling. */
  lemma SaturateWithinSupply(p: Primitives, ts: seq<Vec>)
    requires Lawful(p)
    ensures forall i :: 0 <= i < |ts| ==> Abs(p.magnitude(Saturate(p, ts)[i])) <= MaxVoltage
  {
    var largest := Largest(p, ts);
    if largest > MaxVoltage {
      var out := ScaleAll(p, ts, ClampFactor(largest));
      assert Saturate(p, ts) == out;
      forall i | 0 <= i < |ts|
        ensures Abs(p.magnitude(out[i])) <= MaxVoltage
      {
        ClampedWithinSupply(p, ts[i], largest);
      }
    }
  }

  /** Scaling every target by a positive factor multiplies every magnitude by it. */
  lemma ScaleAllMagnitudes(p: Primitives, ts: seq<Vec>, fac: real)
    requires Lawful(p)
    requires fac > 0.0
    ensures forall i :: 0 <= i < |ts| ==> p.magnitude(ScaleAll(p, ts, fac)[i]) == p.magnitude(ts[i]) * fac
  {
    forall i | 0 <= i < |ts|
      ensures p.magnitude(ScaleAll(p, ts, fac)[i]) == p.magnitude(ts[i]) * fac
    {
      ScaledMagnitude(p, ts[i], fac);
    }
  }

  /**
   * Where the clamp applies, each magnitude is multiplied by the same factor
   * in (0, 1): 12 divided by the largest magnitude.
   */
  lemma SaturateProportional(p: Primitives, ts: seq<Vec>, largest: real)
    requires Lawful(p)
    requires largest == Largest(p, ts) > MaxVoltage
    ensures 0.0 < ClampFactor(largest) < 1.0
    ensures forall i :: 0 <= i < |ts| ==>
      p.magnitude(Saturate(p, ts)[i]) == p.magnitude(ts[i]) * ClampFactor(largest)
  {
    FactorRange(largest);
    ClampMagnitudes(p, ts, largest);
    assert Saturate(p, ts) == Clamp(p, ts, largest);
  }

  lemma ClampMagnitudes(p: Primitives, ts: seq<Vec>, largest: real)
    requires Lawful(p)
    requires largest > MaxVoltage
    ensures forall i :: 0 <= i < |ts| ==>
      p.magnitude(Clamp(p, ts, largest)[i]) == p.magnitude(ts[i]) * ClampFactor(largest)
  {
    FactorRange(largest);
    ScaleAllMagnitudes(p, ts, ClampFactor(largest));
  }

  /** Saturation never turns a module: headings of nonzero targets are kept. */
  lemma SaturateKeepsHeadings(p: Primitives, ts: seq<Vec>, i: int)
    requires Lawful(p)
    requires 0 <= i < |ts| && p.magnitude(ts[i]) > 0.0
    ensures p.angleDeg(Saturate(p, ts)[i]) == p.angleDeg(ts[i])
    ensures p.turnAngleDeg(Saturate(p, ts)[i]) == p.turnAngleDeg(ts[i])
  {
    var largest := Largest(p, ts);
    if largest > MaxVoltage {
      var fac := ClampFactor(largest);
      FactorRange(largest);
      assert Saturate(p, ts)[i] == Scaled(p, ts[i], fac);
      ScaledHeading(p, ts[i], fac);
    }
  }

  /** A bound that every target respects and one target attains is the largest. */
  lemma LargestAttained(p: Primitives, ts: seq<Vec>, j: int, bound: real)
    requires 0 <= j < |ts| && bound > 0.0
    requires forall i :: 0 <= i < |ts| ==> Abs(p.magnitude(ts[i])) <= bound
    requires Abs(p.magnitude(ts[j])) == bound
    ensures Largest(p, ts) == bound
  {
    var r := Largest(p, ts);
    assert r >= bound;
    var k :| 0 <= k < |ts| && r == Abs(p.magnitude(ts[k]));
  }

  /** Scaling so that one target lands exactly on the ceiling, and none above it, makes the ceiling the largest. */
  lemma ScaledPeak(p: Primitives, ts: seq<Vec>, fac: real, j: int)
    requires Lawful(p)
    requires 0 <= j < |ts| && fac > 0.0
    requires Abs(p.magnitude(ts[j])) * fac == MaxVoltage
    requires forall i :: 0 <= i < |ts| ==> Abs(p.magnitude(ScaleAll(p, ts, fac)[i])) <= MaxVoltage
    ensures Largest(p, ScaleAll(p, ts, fac)) == MaxVoltage
  {
    ScaledMagnitude(p, ts[j], fac);
    LargestAttained(p, ScaleAll(p, ts, fac), j, MaxVoltage);
  }

  /** When the clamp applies, the largest target ends up exactly at the ceiling. */
  lemma SaturatePeak(p: Primitives, ts: seq<Vec>)
    requires Lawful(p)
    requires Largest(p, ts) > MaxVoltage
    ensures Largest(p, Saturate(p, ts)) == MaxVoltage
  {
    var j := LargestWitness(p, ts);
    ClampPeak(p, ts, Largest(p, ts), j);
  }

  lemma ClampPeak(p: Primitives, ts: seq<Vec>, largest: real, j: int)
    requires Lawful(p)
    requires largest > MaxVoltage
    requires 0 <= j < |ts| && Abs(p.magnitude(ts[j])) == largest
    requires forall i :: 0 <= i < |ts| ==> Abs(p.magnitude(ts[i])) <= largest
    ensures Largest(p, Clamp(p, ts, largest)) == MaxVoltage
  {
    var fac := ClampFactor(largest);
    FactorRange(largest);
    ScaledPeakOf(p, ts, largest, fac, j);
  }

  /** A positive largest magnitude is attained by some target. */
  lemma LargestWitness(p: Primitives, ts: seq<Vec>) returns (j: int)
    requires Largest(p, ts) > 0.0
    ensures 0 <= j < |ts| && Abs(p.magnitude(ts[j])) == Largest(p, ts)
  {
    j :| 0 <= j < |ts| && Largest(p, ts) == Abs(p.magnitude(ts[j]));
  }

  lemma ScaledPeakOf(p: Primitives, ts: seq<Vec>, largest: real, fac: real, j: int)
    requires Lawful(p)
    requires 0 <= j < |ts| && Abs(p.magnitude(ts[j])) == largest
    requires forall i :: 0 <= i < |ts| ==> Abs(p.magnitude(ts[i])) <= largest
    requires fac > 0.0 && largest * fac == MaxVoltage
    ensures Largest(p, ScaleAll(p, ts, fac)) == MaxVoltage
  {
    forall i | 0 <= i < |ts|
      ensures Abs(p.magnitude(ScaleAll(p, ts, fac)[i])) <= MaxVoltage
    {
      ScaledWithin(p, ts[i], largest, fac);
    }
    ScaledPeak(p, ts, fac, j);
  }

  lemma ScaledWithin(p: Primitives, v: Vec, largest: real, fac: real)
    requires Lawful(p)
    requires fac > 0.0 && largest * fac == MaxVoltage
    requires Abs(p.magnitude(v)) <= largest
    ensures Abs(p.magnitude(Scaled(p, v, fac))) <= MaxVoltage
  {
    var m := p.magnitude(v);
    ScaledMagnitude(p, v, fac);
    NonnegativeProduct(largest - m, fac);
    NonnegativeProduct(m, fac);
    assert (largest - m) * fac == largest * fac - m * fac;
  }

  lemma ZeroGoVector(p: Primitives, angleDeg: real)
    requires Lawful(p)
    ensures p.magnitude(p.fromAngleAndMag(angleDeg, 0.0)) == 0.0
  {
  }

  /** A zero command (no go speed, no turn) gives four zero-magnitude targets. */
  lemma ZeroCommandZeroTargets(p: Primitives, widthInches: real, lengthInches: real, goDirectionDeg: real, k: int)
    requires Lawful(p)
    requires 0 <= k < 4
    ensures p.magnitude(Saturate(p, RawTargets(p, widthInches, lengthInches, 0.0, goDirectionDeg, 0.0))[k]) == 0.0
  {
    var goVec := p.fromAngleAndMag(p.conformAngle(goDirectionDeg), 0.0);
    ZeroGoVector(p, p.conformAngle(goDirectionDeg));
    var raw := RawTargets(p, widthInches, lengthInches, 0.0, goDirectionDeg, 0.0);
    forall i | 0 <= i < 4
      ensures raw[i] == goVec
    {
      NoTurnSameTargets(p, widthInches, lengthInches, 0.0, goDirectionDeg, i);
    }
    assert Largest(p, raw) == 0.0;
  }
}
