/**
 * PathPlannerDrive: the swerve-drive controller. power computes and stores
 * one target vector per module; tick turns the stored targets into module
 * calls, holding back go voltage until the modules are aligned well enough.
 */
module Drive {
  import opened Wrappers
  import opened Vectors
  import opened ModuleCommands
  import opened TargetComputer
  import opened AlignmentGate

  /** The targets held in a target array, index q - 1 for quadrant q, or None for null. */
  function Stored(a: array?<Vec>): Option<seq<Vec>>
    reads a
  {
    if a == null then None else Some(a[..])
  }

  /**
   * A drive demand no module may exceed the supply with: a hard stop, or a
   * go voltage between 0 and 12.
   */
  predicate SupplySafe(d: DriveDemand)
  {
    d == Velocity(0.0) || (d.Voltage? && 0.0 <= d.volts <= MaxVoltage)
  }

  class PathPlannerDrive {
    /** The vector and angle helpers. */
    const lib: Primitives
    const widthInches: real
    const lengthInches: real

    /** How well aligned the modules must be before tick applies go voltage. */
    var alignmentThreshold: real
    /** The targets of the last power call, or null when there are none. */
    var moduleTargets: array?<Vec>
    /** Every call made on the four modules, in order. */
    var log: seq<Sent>

    /**
     * The threshold is in (0, 1], and stored targets are four vectors within
     * the supply (given the laws of the vector helpers).
     */
    ghost predicate Valid()
      reads this, moduleTargets
    {
      && 0.0 < alignmentThreshold <= 1.0
      && (moduleTargets != null ==> moduleTargets.Length == 4)
      && (Lawful(lib) && moduleTargets != null ==>
            forall k :: 0 <= k < 4 ==> Abs(lib.magnitude(moduleTargets[k])) <= MaxVoltage)
    }

    /** A controller with no targets that has sent nothing yet; the threshold starts at 1. */
    constructor (lib: Primitives, widthInches: real, lengthInches: real)
      ensures Valid()
      ensures this.lib == lib && this.widthInches == widthInches && this.lengthInches == lengthInches
      ensures alignmentThreshold == 1.0
      ensures moduleTargets == null
      ensures log == []
    {
      this.lib := lib;
      this.widthInches := widthInches;
      this.lengthInches := lengthInches;
      alignmentThreshold := 1.0;
      moduleTargets := null;
      log := [];
    }

    /**
     * Accepts a threshold in (0, 1]; any other value is refused (the source
     * throws) and the threshold stays as it was.
     */
    method SetAlignmentThreshold(newThreshold: real) returns (accepted: bool)
      requires Valid()
      modifies this
      ensures Valid()
      ensures accepted <==> 0.0 < newThreshold <= 1.0
      ensures alignmentThreshold == if accepted then newThreshold else old(alignmentThreshold)
      ensures moduleTargets == old(moduleTargets) && log == old(log)
    {
      if newThreshold <= 0.0 || newThreshold > 1.0 {
        return false;
      }
      alignmentThreshold := newThreshold;
      return true;
    }

    /** stopGoPower: forget the targets and send go voltage 0 to every module. */
    method StopGoPower()
      requires Valid()
      modifies this
      ensures Valid()
      ensures moduleTargets == null
      ensures log == old(log) + StopCommands()
      ensures alignmentThreshold == old(alignmentThreshold)
    {
      moduleTargets := null;
      var i := 0;
      while i < 4
        invariant 0 <= i <= 4
        invariant log == old(log) + StopCommands()[..i]
        invariant moduleTargets == null && alignmentThreshold == old(alignmentThreshold)
      {
        log := log + [Sent(CornerOf(i), SetGoVoltage(0.0))];
        assert StopCommands()[..i + 1] == StopCommands()[..i] + [Sent(CornerOf(i), SetGoVoltage(0.0))];
        i := i + 1;
      }
      assert StopCommands()[..4] == StopCommands();
    }

    /** setConstants: the same gains to every module. */
    method SetConstants(constant: PDConstant)
      modifies this
      ensures log == old(log) + ConstantsCommands(constant)
      ensures moduleTargets == old(moduleTargets) && alignmentThreshold == old(alignmentThreshold)
    {
      log := log + [Sent(FrontLeft, Command.SetConstants(constant))];
      log := log + [Sent(FrontRight, Command.SetConstants(constant))];
      log := log + [Sent(BackLeft, Command.SetConstants(constant))];
      log := log + [Sent(BackRight, Command.SetConstants(constant))];
    }

    /** power's first loop: the raw target of every quadrant, written into a. */
    method FillTargets(a: array<Vec>, goSpeed: real, goDirectionDeg: real, turnVelocity: real)
      requires a.Length == 4
      modifies a
      ensures a[..] == RawTargets(lib, widthInches, lengthInches, goSpeed, goDirectionDeg, turnVelocity)
    {
      var speed := TurnSpeed(lib, widthInches, lengthInches, turnVelocity);
      var direction := lib.conformAngle(goDirectionDeg);
      var quadrant := 1;
      while quadrant <= 4
        invariant 1 <= quadrant <= 5
        invariant forall k :: 0 <= k < quadrant - 1 ==>
          a[k] == RawTarget(lib, widthInches, lengthInches, goSpeed, goDirectionDeg, turnVelocity, k + 1)
      {
        var turnVec := Multiply(TurnVec(lib, quadrant), speed);
        var goVec := lib.fromAngleAndMag(direction, goSpeed);
        a[quadrant - 1] := Add(goVec, turnVec);
        quadrant := quadrant + 1;
      }
    }

    /** power's second loop: the largest absolute target magnitude, or 0. */
    method LargestMagnitude(a: array<Vec>) returns (largest: real)
      ensures largest == Largest(lib, a[..])
    {
      largest := 0.0;
      var i := 0;
      while i < a.Length
        invariant 0 <= i <= a.Length
        invariant largest == Largest(lib, a[..i])
      {
        var m := Abs(lib.magnitude(a[i]));
        assert a[..i + 1][..i] == a[..i];
        if m > largest {
          largest := m;
        }
        i := i + 1;
      }
      assert a[..a.Length] == a[..];
    }

    /** power's last step: shrink every target by 12 / largest when largest is over 12. */
    method ClampInPlace(a: array<Vec>, largest: real)
      requires a.Length == 4
      modifies a
      ensures a[..] == Clamp(lib, old(a[..]), largest)
    {
      if largest > MaxVoltage {
        ScaleInPlace(a, ClampFactor(largest));
      }
    }

    /** The clamp loop for a given factor: every target's magnitude multiplied by fac. */
    method ScaleInPlace(a: array<Vec>, fac: real)
      modifies a
      ensures a[..] == ScaleAll(lib, old(a[..]), fac)
    {
      var i := 0;
      while i < a.Length
        invariant 0 <= i <= a.Length
        invariant forall k :: 0 <= k < i ==> a[k] == Scaled(lib, old(a[k]), fac)
        invariant forall k :: i <= k < a.Length ==> a[k] == old(a[k])
      {
        var tar := a[i];
        a[i] := Scaled(lib, tar, fac);
        i := i + 1;
      }
    }

    /**
     * power. When the drive is disabled the go power is stopped first. Then
     * the range check runs; on a fault nothing more happens. Otherwise the
     * stored targets become the saturated raw targets of the command, written
     * over the existing array when there is one.
     */
    method Power(goSpeed: real, goDirectionDeg: real, turnVelocity: real,
                 errorOnLargeVoltage: bool, driveDisabled: bool) returns (fault: Option<PowerFault>)
      requires Valid()
      modifies this, moduleTargets
      ensures Valid()
      ensures fault == VoltageCheck(goSpeed, turnVelocity, errorOnLargeVoltage)
      ensures log == old(log) + (if driveDisabled then StopCommands() else [])
      ensures alignmentThreshold == old(alignmentThreshold)
      ensures fault.Some? ==> if driveDisabled then moduleTargets == null
                              else moduleTargets == old(moduleTargets) && Stored(moduleTargets) == old(Stored(moduleTargets))
      ensures fault.None? ==>
        Stored(moduleTargets) == Some(Saturate(lib, RawTargets(lib, widthInches, lengthInches, goSpeed, goDirectionDeg, turnVelocity)))
      ensures fault.None? && !driveDisabled && old(moduleTargets) != null ==> moduleTargets == old(moduleTargets)
      ensures fault.None? && (driveDisabled || old(moduleTargets) == null) ==> fresh(moduleTargets)
      ensures fault.None? && Lawful(lib) ==>
        forall k :: 0 <= k < 4 ==> Abs(lib.magnitude(moduleTargets[k])) <= MaxVoltage
    {
      if driveDisabled {
        StopGoPower();
      }
      fault := VoltageCheck(goSpeed, turnVelocity, errorOnLargeVoltage);
      if fault.Some? {
        return;
      }
      Retarget(goSpeed, goDirectionDeg, turnVelocity);
    }

    /**
     * The body of power after the range check: the target array (allocated
     * on first use, else reused) receives the raw targets, which are then
     * clamped to the supply.
     */
    method Retarget(goSpeed: real, goDirectionDeg: real, turnVelocity: real)
      requires Valid()
      modifies this, moduleTargets
      ensures Valid()
      ensures log == old(log) && alignmentThreshold == old(alignmentThreshold)
      ensures Stored(moduleTargets) == Some(Saturate(lib, RawTargets(lib, widthInches, lengthInches, goSpeed, goDirectionDeg, turnVelocity)))
      ensures old(moduleTargets) != null ==> moduleTargets == old(moduleTargets)
      ensures old(moduleTargets) == null ==> fresh(moduleTargets)
      ensures Lawful(lib) ==> forall k :: 0 <= k < 4 ==> Abs(lib.magnitude(moduleTargets[k])) <= MaxVoltage
    {
      if moduleTargets == null {
        moduleTargets := new Vec[4](_ => Vec(0.0, 0.0));
      }
      var targets := moduleTargets;
      FillTargets(targets, goSpeed, goDirectionDeg, turnVelocity);
      ghost var raw := targets[..];
      var largest := LargestMagnitude(targets);
      ClampInPlace(targets, largest);
      assert targets[..] == Saturate(lib, raw);
      if Lawful(lib) {
        SaturateWithinSupply(lib, raw);
      }
    }

    /** The three-argument power: the range check is always on. */
    method PowerStrict(goVoltage: real, goDirectionDeg: real, turnVoltage: real, driveDisabled: bool)
      returns (fault: Option<PowerFault>)
      requires Valid()
      modifies this, moduleTargets
      ensures Valid()
      ensures fault == VoltageCheck(goVoltage, turnVoltage, true)
      ensures fault.Some? <==> Abs(goVoltage) > MaxVoltage || Abs(turnVoltage) > MaxVoltage
      ensures log == old(log) + (if driveDisabled then StopCommands() else [])
      ensures alignmentThreshold == old(alignmentThreshold)
      ensures fault.Some? ==> if driveDisabled then moduleTargets == null
                              else moduleTargets == old(moduleTargets) && Stored(moduleTargets) == old(Stored(moduleTargets))
      ensures fault.None? ==>
        Stored(moduleTargets) == Some(Saturate(lib, RawTargets(lib, widthInches, lengthInches, goVoltage, goDirectionDeg, turnVoltage)))
    {
      fault := Power(goVoltage, goDirectionDeg, turnVoltage, true, driveDisabled);
    }

    /**
     * tick's first loop: the heading error of the modules weighted by their
     * target magnitudes, and the sum of those magnitudes.
     */
    method AlignmentSums(a: array<Vec>, measuredDeg: Corner -> real) returns (error: real, total: real)
      requires a.Length == 4
      ensures error == ErrorSum(lib, a[..], measuredDeg)
      ensures total == TotalMagnitude(lib, a[..])
    {
      error := 0.0;
      total := 0.0;
      var quadrant := 1;
      while quadrant <= 4
        invariant 1 <= quadrant <= 5
        invariant error == ErrorSum(lib, a[..quadrant - 1], measuredDeg)
        invariant total == TotalMagnitude(lib, a[..quadrant - 1])
      {
        var tar := a[quadrant - 1];
        assert a[..quadrant][..quadrant - 1] == a[..quadrant - 1];
        error := error + lib.magnitude(tar)
          * (Abs(lib.deltaReversable(measuredDeg(CornerOf(quadrant - 1)), lib.angleDeg(tar))) / 90.0);
        total := total + lib.magnitude(tar);
        quadrant := quadrant + 1;
      }
      assert a[..4] == a[..];
    }

    /**
     * tick's second loop: for each module in quadrant order, its go voltage
     * (the target magnitude when the gate is open, else 0) and its steering
     * target, or setVelocity(0) when there are no targets.
     */
    method IssueOrders(error: real, total: real)
      requires Valid()
      modifies this
      ensures Valid()
      ensures moduleTargets == old(moduleTargets) && alignmentThreshold == old(alignmentThreshold)
      ensures log == old(log) + IssueCommands(lib, Stored(moduleTargets), Stored(moduleTargets).Some? && DriveAllowed(error, total, alignmentThreshold), 4)
    {
      ghost var targets := Stored(moduleTargets);
      ghost var open := targets.Some? && DriveAllowed(error, total, alignmentThreshold);
      var quadrant := 1;
      while quadrant <= 4
        invariant 1 <= quadrant <= 5
        invariant moduleTargets == old(moduleTargets) && alignmentThreshold == old(alignmentThreshold)
        invariant log == old(log) + IssueCommands(lib, targets, open, quadrant - 1)
      {
        var corner := CornerOf(quadrant - 1);
        ghost var sent := log;
        if moduleTargets != null {
          var vec := moduleTargets[quadrant - 1];
          var magnitude := lib.magnitude(vec);
          var heading := lib.turnAngleDeg(vec);
          var volts := if DriveAllowed(error, total, alignmentThreshold) then magnitude else 0.0;
          log := log + [Sent(corner, SetGoVoltage(volts)), Sent(corner, SetTurnTarget(heading))];
        } else {
          log := log + [Sent(corner, SetVelocity(0.0))];
        }
        assert log == sent + ModuleOrders(lib, targets, open, quadrant - 1);
        assert (old(log) + IssueCommands(lib, targets, open, quadrant - 1)) + ModuleOrders(lib, targets, open, quadrant - 1)
            == old(log) + (IssueCommands(lib, targets, open, quadrant - 1) + ModuleOrders(lib, targets, open, quadrant - 1));
        quadrant := quadrant + 1;
      }
      assert Stored(moduleTargets) == targets;
    }

    /** tick's last step: every module's own tick, front-left first. */
    method TickModules(dTime: real)
      modifies this
      ensures log == old(log) + TickCommands(dTime)
      ensures moduleTargets == old(moduleTargets) && alignmentThreshold == old(alignmentThreshold)
    {
      log := log + [Sent(FrontLeft, Command.Tick(dTime))];
      log := log + [Sent(FrontRight, Command.Tick(dTime))];
      log := log + [Sent(BackLeft, Command.Tick(dTime))];
      log := log + [Sent(BackRight, Command.Tick(dTime))];
    }

    /**
     * tick. measuredDeg gives each module's current heading. When the drive
     * is disabled the go power is stopped first. Every module then gets its
     * commands for this cycle, and finally its own tick.
     */
    method Tick(dTime: real, measuredDeg: Corner -> real, driveDisabled: bool)
      requires Valid()
      modifies this
      ensures Valid()
      ensures moduleTargets == (if driveDisabled then null else old(moduleTargets))
      ensures alignmentThreshold == old(alignmentThreshold)
      ensures log == old(log) + (if driveDisabled then StopCommands() else [])
                     + CycleCommands(lib, Stored(moduleTargets), measuredDeg, alignmentThreshold, dTime)
      ensures Lawful(lib) ==> forall c :: SupplySafe(StateOf(log, c).drive)
    {
      if driveDisabled {
        StopGoPower();
      }
      ghost var before := log;
      assert before == old(log) + (if driveDisabled then StopCommands() else []);
      ghost var targets := Stored(moduleTargets);
      var error := 0.0;
      var total := 0.0;
      if moduleTargets != null {
        error, total := AlignmentSums(moduleTargets, measuredDeg);
      }
      ghost var open := targets.Some? && DriveAllowed(error, total, alignmentThreshold);
      assert CycleCommands(lib, targets, measuredDeg, alignmentThreshold, dTime)
          == IssueCommands(lib, targets, open, 4) + TickCommands(dTime);
      IssueOrders(error, total);
      assert Stored(moduleTargets) == targets;
      TickModules(dTime);
      assert Stored(moduleTargets) == targets;
      assert (before + IssueCommands(lib, targets, open, 4)) + TickCommands(dTime)
          == before + (IssueCommands(lib, targets, open, 4) + TickCommands(dTime));
      assert log == before + CycleCommands(lib, targets, measuredDeg, alignmentThreshold, dTime);
      if Lawful(lib) {
        forall c
          ensures SupplySafe(StateOf(log, c).drive)
        {
          if targets.Some? {
            CycleWithinSupply(lib, before, targets.value, measuredDeg, alignmentThreshold, dTime, c);
          } else {
            CycleStopsModules(lib, before, measuredDeg, alignmentThreshold, dTime, c);
          }
        }
      }
    }
  }
}
