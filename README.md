# PathPlannerDrive — a verified model of the swerve-drive target controller

`PathPlannerDrive` drives a four-module swerve drivetrain. `power` turns a
go speed, a go direction and a turn rate into one target vector per module:
the go vector plus that module's diagonal turn vector, scaled by the turn
rate converted to linear speed. If any target is over the 12 V supply, all
four targets are shrunk by one common factor. `tick` runs once per control
cycle. It weighs each module's heading error by its target magnitude. It then
lets go voltage through to all four modules or to none of them. Steering
targets are always sent, and every module's own loop is ticked. With no
targets, every module is told `setVelocity(0)`. `stopGoPower` forgets the
targets and zeroes every module's go voltage. `setAlignmentThreshold` accepts
only values in (0, 1].

Files:

- `vectors.dfy` (`Vectors`): `Vector2` as a Cartesian pair with exact
  addition and scaling. The helpers that need trigonometry or a square root
  (`getMagnitude`, `withMagnitude`, `fromAngleAndMag`, `getAngleDeg`,
  `getTurnAngleDeg`, `AngleMath.conformAngle`, `AngleMath.getDeltaReversable`,
  `Math.sqrt`, the value of `1 / Math.sqrt(2)`) are function-valued fields of a
  `Primitives` record. `Lawful` lists the only facts the proofs use about
  them. `UnitDiagonal` states that `1 / sqrt 2` is positive with square 1/2.
- `module_commands.dfy` (`ModuleCommands`): the four modules. Every call the
  controller makes on a module is appended to a log. A module's state (drive
  demand, turn target, PD gains, ticks received) is what its calls leave
  behind. `setGoVoltage` and `setVelocity` share one drive-demand slot and
  the last of them wins; that is an assumption about `SwerveModulePD`, whose
  body is not part of this model. The per-module call logs (`Received` and
  the lemmas about it) do not depend on it.
- `target_computer.dfy` (`TargetComputer`): the pure part of `power`. It holds
  the range check, `getTurnVec`, the raw targets and the proportional clamp.
- `alignment_gate.dfy` (`AlignmentGate`): the pure part of `tick`. It holds
  the weighted error, the gate, and the calls one cycle sends.
- `path_planner_drive.dfy` (`Drive`): the class `PathPlannerDrive`. It has the
  fields `alignmentThreshold` and `moduleTargets` (a nullable array,
  overwritten in place). Its methods are proved against the functions above.

Exceptions are results. `setAlignmentThreshold` returns whether it accepted
the value. `power` returns an `Option<PowerFault>` naming the argument that
was too large. The process-wide `isDriveDisabled` flag is a parameter of
`Power` and `Tick`. Each module's measured heading (`getAngle()`) is a
parameter of `Tick`.

Points where the code's behaviour may be unexpected:

- The gate opens when `error / total < 1 - threshold`. A higher threshold is
  stricter. With the initial threshold of 1 the gate never opens.
- When the total magnitude is 0, Java divides by zero. `0/0` is NaN and
  `x/0` is ±Infinity, and only -Infinity compares less. So the gate is open
  exactly when the error is negative. That never happens under `Lawful`, so
  every go voltage is 0. Reading the ratio as 0 would send the same
  voltages; `ZeroTotalSameVoltages` shows why: all targets then have
  magnitude 0.
- An existing target array is overwritten in place, not replaced.
- Target index `q - 1` belongs to quadrant `q`. `tick` walks the modules in
  the order front-right, front-left, back-left, back-right. So index 0 is
  front-right's target, not front-left's.

## Model

| member | source | states |
|---|---|---|
| Drive.PathPlannerDrive.constructor | src/main/java/frc/robot/Auto/PathPlannerDrive.java:37 | A new controller has threshold 1, no targets, and has sent nothing to the modules |
| Drive.PathPlannerDrive.SetAlignmentThreshold | src/main/java/frc/robot/Auto/PathPlannerDrive.java:46-50 | Accepted exactly when 0 < t <= 1; then the threshold is t, otherwise it is unchanged; targets and modules untouched |
| TargetComputer.VoltageCheck | src/main/java/frc/robot/Auto/PathPlannerDrive.java:114-119 | Fails exactly when the check is on and abs(goSpeed) > 12 or the raw abs(turnVelocity) > 12; the go-voltage fault exactly when abs(goSpeed) > 12 |
| Drive.PathPlannerDrive.Power | src/main/java/frc/robot/Auto/PathPlannerDrive.java:109-156 | Fault as VoltageCheck; on a fault the targets are untouched (cleared if the drive is disabled); otherwise the stored targets are the saturated raw targets, in the old array when there was one, a fresh one otherwise; all magnitudes at most 12 |
| Drive.PathPlannerDrive.PowerStrict | src/main/java/frc/robot/Auto/PathPlannerDrive.java:159-161 | The three-argument power always checks: fails exactly when abs(goVoltage) > 12 or abs(turnVoltage) > 12 |
| Drive.PathPlannerDrive.Retarget | src/main/java/frc/robot/Auto/PathPlannerDrive.java:130-155 | Allocates the array only when it is null, reuses it otherwise, and leaves it holding the saturated raw targets, each within 12 V |
| Drive.PathPlannerDrive.FillTargets | src/main/java/frc/robot/Auto/PathPlannerDrive.java:135-141 | After the quadrant loop the array holds the raw target of quadrant k + 1 at index k |
| Drive.PathPlannerDrive.LargestMagnitude | src/main/java/frc/robot/Auto/PathPlannerDrive.java:144-148 | The loop returns the largest absolute target magnitude, or 0 |
| Drive.PathPlannerDrive.ClampInPlace | src/main/java/frc/robot/Auto/PathPlannerDrive.java:149-155 | The array becomes the clamp of its old contents for the largest magnitude |
| Drive.PathPlannerDrive.ScaleInPlace | src/main/java/frc/robot/Auto/PathPlannerDrive.java:150-154 | Every entry becomes withMagnitude(magnitude * fac) of its old value, in place |
| TargetComputer.TurnVec | src/main/java/frc/robot/Auto/PathPlannerDrive.java:181-186 | Each coordinate of a turn vector is +s or -s, with s = 1 / sqrt 2 |
| TargetComputer.TurnVecQuadrants | src/main/java/frc/robot/Auto/PathPlannerDrive.java:181-186 | Quadrant 1 gives (-s, s), 2 gives (-s, -s), 3 gives (s, -s), 4 gives (s, s) |
| TargetComputer.TurnVecOpposite | src/main/java/frc/robot/Auto/PathPlannerDrive.java:181-186 | The turn vectors of quadrants 1 and 3, and of 2 and 4, are negatives of each other |
| TargetComputer.TurnVecsCancel | src/main/java/frc/robot/Auto/PathPlannerDrive.java:181-186 | The four turn vectors sum to zero, so a pure spin adds no net translation |
| TargetComputer.TurnVecUnitLength | src/main/java/frc/robot/Auto/PathPlannerDrive.java:181-186 | Every turn vector has squared length 1 |
| TargetComputer.TurnVecsDistinct | src/main/java/frc/robot/Auto/PathPlannerDrive.java:181-186 | The four quadrants have four different turn vectors |
| TargetComputer.RawTargets | src/main/java/frc/robot/Auto/PathPlannerDrive.java:123-141 | Four targets; entry k is the go vector fromAngleAndMag(conformAngle(direction), goSpeed) plus the turn vector of quadrant k + 1 times the converted turn speed |
| TargetComputer.NoTurnSameTargets | src/main/java/frc/robot/Auto/PathPlannerDrive.java:135-141 | With turn rate 0 every raw target equals the go vector |
| TargetComputer.ZeroCommandZeroTargets | src/main/java/frc/robot/Auto/PathPlannerDrive.java:123-155 | power(0, direction, 0) stores four targets of magnitude 0 |
| TargetComputer.Largest | src/main/java/frc/robot/Auto/PathPlannerDrive.java:144-148 | The result is at least 0, bounds every absolute magnitude, and is 0 or attained by some target |
| TargetComputer.Saturate | src/main/java/frc/robot/Auto/PathPlannerDrive.java:149-155 | Same number of targets; when the largest magnitude is at most 12 the targets are left exactly as they were |
| TargetComputer.ScaleAll | src/main/java/frc/robot/Auto/PathPlannerDrive.java:150-154 | Every target is replaced by its withMagnitude(magnitude * fac), the same fac for all |
| TargetComputer.FactorRange | src/main/java/frc/robot/Auto/PathPlannerDrive.java:151 | For a largest magnitude over 12 the factor 12 / largest lies in (0, 1) and maps the largest to 12 |
| TargetComputer.SaturateWithinSupply | src/main/java/frc/robot/Auto/PathPlannerDrive.java:143-155 | After saturation no target's absolute magnitude exceeds 12 |
| TargetComputer.SaturateProportional | src/main/java/frc/robot/Auto/PathPlannerDrive.java:149-155 | When the clamp applies, every magnitude is multiplied by one common factor 12 / largest in (0, 1) |
| TargetComputer.SaturatePeak | src/main/java/frc/robot/Auto/PathPlannerDrive.java:149-155 | When the clamp applies, the largest magnitude afterwards is exactly 12 |
| TargetComputer.SaturateKeepsHeadings | src/main/java/frc/robot/Auto/PathPlannerDrive.java:153 | Saturation keeps the heading and the turn angle of every nonzero target |
| TargetComputer.ScaledMagnitude | src/main/java/frc/robot/Auto/PathPlannerDrive.java:153 | withMagnitude(magnitude * fac) for fac > 0 has magnitude multiplied by fac |
| TargetComputer.ScaledHeading | src/main/java/frc/robot/Auto/PathPlannerDrive.java:153 | withMagnitude(magnitude * fac) for fac > 0 keeps a nonzero vector's heading |
| TargetComputer.ClampedWithinSupply | src/main/java/frc/robot/Auto/PathPlannerDrive.java:151-153 | A target within the largest magnitude lands within 12 after the clamp |
| Drive.PathPlannerDrive.StopGoPower | src/main/java/frc/robot/Auto/PathPlannerDrive.java:194-199 | Targets become null and every module is sent go voltage 0, once each; the threshold is unchanged |
| ModuleCommands.StopReceived | src/main/java/frc/robot/Auto/PathPlannerDrive.java:196-198 | Each module receives exactly one call from stopGoPower: go voltage 0 |
| ModuleCommands.StopState | src/main/java/frc/robot/Auto/PathPlannerDrive.java:194-199 | After stopGoPower a module's drive demand is voltage 0 and nothing else about it changed |
| ModuleCommands.StopIdempotent | src/main/java/frc/robot/Auto/PathPlannerDrive.java:194-199 | Stopping twice leaves every module as stopping once does |
| Drive.PathPlannerDrive.SetConstants | src/main/java/frc/robot/Auto/PathPlannerDrive.java:164-169 | The same gains are sent to every module; the controller state is unchanged |
| ModuleCommands.ConstantsReceived | src/main/java/frc/robot/Auto/PathPlannerDrive.java:164-169 | Each module receives the gains exactly once |
| ModuleCommands.IndexOf | src/main/java/frc/robot/Auto/PathPlannerDrive.java:214-215 | Each module owns exactly one target index, the position in the order front-right, front-left, back-left, back-right |
| ModuleCommands.TickReceived | src/main/java/frc/robot/Auto/PathPlannerDrive.java:239-242 | Each module's own tick is called exactly once per cycle, with dTime |
| Drive.PathPlannerDrive.TickModules | src/main/java/frc/robot/Auto/PathPlannerDrive.java:239-242 | The modules' ticks are sent front-left, front-right, back-left, back-right; the controller state is unchanged |
| Drive.PathPlannerDrive.AlignmentSums | src/main/java/frc/robot/Auto/PathPlannerDrive.java:209-222 | The loop returns the magnitude-weighted heading error (90 degrees counting 1) and the total magnitude |
| AlignmentGate.ErrorSumNonnegative | src/main/java/frc/robot/Auto/PathPlannerDrive.java:216-218 | The weighted error is never negative |
| AlignmentGate.TotalMagnitudeNonnegative | src/main/java/frc/robot/Auto/PathPlannerDrive.java:219 | The total magnitude is never negative |
| AlignmentGate.DriveAllowedWithoutDivision | src/main/java/frc/robot/Auto/PathPlannerDrive.java:228 | For a positive total the gate is open exactly when error < (1 - threshold) * total |
| AlignmentGate.ZeroTotalBlocks | src/main/java/frc/robot/Auto/PathPlannerDrive.java:228 | With total 0 and a non-negative error the comparison is false, so the gate stays shut |
| AlignmentGate.FullThresholdBlocks | src/main/java/frc/robot/Auto/PathPlannerDrive.java:37 | With threshold 1 the comparison is never true |
| AlignmentGate.FullThresholdNeverDrives | src/main/java/frc/robot/Auto/PathPlannerDrive.java:226-232 | With threshold 1 no set of targets opens the gate |
| AlignmentGate.GateMonotone | src/main/java/frc/robot/Auto/PathPlannerDrive.java:228 | A lower threshold opens the gate whenever a higher one does |
| AlignmentGate.GateBoundaryExample | src/main/java/frc/robot/Auto/PathPlannerDrive.java:228 | With threshold 0.2, a ratio of 0.75 drives and 0.85 does not |
| AlignmentGate.ZeroTotalZeroTargets | src/main/java/frc/robot/Auto/PathPlannerDrive.java:219 | A total of 0 means every target has magnitude 0 |
| AlignmentGate.AlignedNoError | src/main/java/frc/robot/Auto/PathPlannerDrive.java:216-218 | Modules pointing at their targets contribute no error |
| AlignmentGate.AlignedDrives | src/main/java/frc/robot/Auto/PathPlannerDrive.java:209-232 | Aligned modules, a positive total and a threshold below 1 open the gate |
| AlignmentGate.ZeroTotalSameVoltages | src/main/java/frc/robot/Auto/PathPlannerDrive.java:228-232 | A zero total shuts the gate and all targets have magnitude 0; the cycle then sends exactly the calls that reading the ratio as 0 would send |
| AlignmentGate.ModuleOrdersReceived | src/main/java/frc/robot/Auto/PathPlannerDrive.java:225-237 | One loop step reaches only the module it addresses |
| AlignmentGate.IssueReceived | src/main/java/frc/robot/Auto/PathPlannerDrive.java:224-238 | The command loop reaches each module exactly once, with its go voltage and turn target or with setVelocity(0) |
| Drive.PathPlannerDrive.IssueOrders | src/main/java/frc/robot/Auto/PathPlannerDrive.java:224-238 | The loop sends, per module, the gated go voltage and the turn target, or setVelocity(0) when there are no targets |
| Drive.PathPlannerDrive.Tick | src/main/java/frc/robot/Auto/PathPlannerDrive.java:205-243 | The state is unchanged unless the drive is disabled (then targets cleared); the calls sent are the stop calls if disabled, then one cycle's commands for the stored targets; afterwards every module is hard-stopped or at a go voltage in [0, 12] |
| AlignmentGate.CycleWithoutTargets | src/main/java/frc/robot/Auto/PathPlannerDrive.java:234-242 | With no targets each module receives setVelocity(0) then its tick, and nothing else |
| AlignmentGate.CycleWithTargets | src/main/java/frc/robot/Auto/PathPlannerDrive.java:226-242 | With targets each module receives its gated go voltage, its turn target, then its tick |
| AlignmentGate.CycleAllOrNothing | src/main/java/frc/robot/Auto/PathPlannerDrive.java:224-242 | After a cycle with targets either every module drives at its target magnitude or every one is at 0; all steer to their targets; all ticked once more |
| AlignmentGate.CycleWithinSupply | src/main/java/frc/robot/Auto/PathPlannerDrive.java:229 | Targets within 12 V mean no module is ever told to apply more than 12 V |
| AlignmentGate.CycleStopsModules | src/main/java/frc/robot/Auto/PathPlannerDrive.java:234-242 | A cycle without targets leaves every module at velocity 0, steering as before, ticked once more |
| TargetComputer.TurnSpeed | src/main/java/frc/robot/Auto/PathPlannerDrive.java:123-124 | definition: the turn rate in degrees per second times pi/180 times sqrt((width/2)^2 + (length/2)^2), the module's linear speed |
| TargetComputer.RawTarget | src/main/java/frc/robot/Auto/PathPlannerDrive.java:136-138 | definition: one quadrant's go vector plus its turn vector scaled by the converted turn speed |
| TargetComputer.Scaled | src/main/java/frc/robot/Auto/PathPlannerDrive.java:153 | definition: withMagnitude(v, magnitude(v) * fac), one target in the clamp loop |
| TargetComputer.ClampFactor | src/main/java/frc/robot/Auto/PathPlannerDrive.java:151 | definition: the common factor 12 / largest |
| TargetComputer.Clamp | src/main/java/frc/robot/Auto/PathPlannerDrive.java:149-155 | Same number of targets; definition: every target scaled by 12 / largest when largest is over 12, else untouched |
| AlignmentGate.WeightedError | src/main/java/frc/robot/Auto/PathPlannerDrive.java:216-218 | definition: target magnitude times the absolute heading delta divided by 90 |
| AlignmentGate.ErrorSum | src/main/java/frc/robot/Auto/PathPlannerDrive.java:214-221 | definition: the weighted errors summed over the modules in quadrant order, each paired with its own module's measured heading |
| AlignmentGate.TotalMagnitude | src/main/java/frc/robot/Auto/PathPlannerDrive.java:219 | definition: the target magnitudes summed |
| AlignmentGate.DriveAllowed | src/main/java/frc/robot/Auto/PathPlannerDrive.java:228 | definition: error / total < 1 - threshold; for total 0 it is error < 0, the only case where Java's NaN or infinite quotient compares less |
| AlignmentGate.GateOpen | src/main/java/frc/robot/Auto/PathPlannerDrive.java:209-228 | definition: the gate comparison applied to the error and total of four targets |
| AlignmentGate.ModuleOrders | src/main/java/frc/robot/Auto/PathPlannerDrive.java:226-235 | definition: the calls for the module owning index k: gated go voltage and turn target, or setVelocity(0) without targets |
| AlignmentGate.OrdersFor | src/main/java/frc/robot/Auto/PathPlannerDrive.java:226-235 | definition: the commands of ModuleOrders without their addressee |
| AlignmentGate.IssueCommands | src/main/java/frc/robot/Auto/PathPlannerDrive.java:224-238 | definition: the command loop's calls for the first n modules, in quadrant order |
| AlignmentGate.CycleCommands | src/main/java/frc/robot/Auto/PathPlannerDrive.java:224-242 | definition: the command loop for the gate's one verdict, then the four module ticks |
| AlignmentGate.CycleState | src/main/java/frc/robot/Auto/PathPlannerDrive.java:226-242 | definition: a module after a cycle with targets: gated voltage, its turn target, one more tick |
| AlignmentGate.VerdictIrrelevant | src/main/java/frc/robot/Auto/PathPlannerDrive.java:226-232 | With all target magnitudes 0, an open and a shut gate send the same calls |
| ModuleCommands.CornerOf | src/main/java/frc/robot/Auto/PathPlannerDrive.java:214 | definition: index k to module, in the order front-right, front-left, back-left, back-right |
| ModuleCommands.StopCommands | src/main/java/frc/robot/Auto/PathPlannerDrive.java:196-198 | definition: go voltage 0 to front-right, front-left, back-left, back-right |
| ModuleCommands.TickCommands | src/main/java/frc/robot/Auto/PathPlannerDrive.java:239-242 | definition: each module's tick(dTime), front-left first |
| ModuleCommands.ConstantsCommands | src/main/java/frc/robot/Auto/PathPlannerDrive.java:164-169 | definition: the same gains to each module, front-left first |
| Drive.Stored | src/main/java/frc/robot/Auto/PathPlannerDrive.java:130-131 | definition: the two-state target state: None for a null array, else its four entries |
| Drive.SupplySafe | src/main/java/frc/robot/Auto/PathPlannerDrive.java:229-235 | definition: a drive demand that is a hard stop or a go voltage in [0, 12] |

## Left out

- `RobotContainer` (joystick mapping, dashboard logging, autonomous sequencing, command lifecycle) is not part of this model. Its only input here is the drive-disabled flag, taken as a parameter.
- `fromChassisSpeeds` is left out: it does not compile and depends on the WPILib kinematics object.
- The `kinematics` object and `circumferenceInches` are left out: the target computation never reads them.
- `getPositions` is left out: it only reads module telemetry.
- `reset`, `cleanUp`, the `DeSpam` field and `SubsystemBase` scheduling have no logic and are left out.
- The bodies of `Vector2`, `AngleMath` and `SwerveModulePD` are not part of this model. The vector helpers that need trigonometry or a square root are uninterpreted. The module is only the record of calls it received; its PD control and encoders are not modelled.
- Doubles are exact reals. `Math.PI` is the real its literal denotes. `Math.sqrt` and `1 / Math.sqrt(2)` are uninterpreted, with `UnitDiagonal` as the only fact about the latter. IEEE-754 rounding, NaN and infinities are not modelled, except for the zero-total comparison in `tick`.
- Java exceptions are modelled as returned results, so a caller's stack unwinding is not modelled.
- TargetComputer.SaturateKeepsHeadings: keeps headings only for targets of nonzero magnitude, because the angle of a zero vector is arbitrary.
