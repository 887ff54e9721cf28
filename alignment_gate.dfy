/**
 * The per-cycle part of PathPlannerDrive.tick: the magnitude-weighted
 * heading error of the four modules, the all-or-nothing decision whether go
 * voltage may be applied, and the calls one cycle makes on the modules.
 */
module AlignmentGate {
  import opened Wrappers
  import opened Vectors
  import opened ModuleCommands
  import opened TargetComputer

  /**
   * One module's share of the error: the target magnitude times the
   * module's heading error, scaled so that 90 degrees counts as 1.
   */
  function WeightedError(p: Primitives, target: Vec, measuredDeg: real): real
  {
    p.magnitude(target) * (Abs(p.deltaReversable(measuredDeg, p.angleDeg(target))) / 90.0)
  }

  /** The summed weighted error of the first |ts| modules, in quadrant order. */
  function ErrorSum(p: Primitives, ts: seq<Vec>, measuredDeg: Corner -> real): real
    requires |ts| <= 4
    decreases |ts|
  {
    if ts == [] then 0.0
    else
      var k := |ts| - 1;
      ErrorSum(p, ts[..k], measuredDeg) + WeightedError(p, ts[k], measuredDeg(CornerOf(k)))
  }

  /** The summed target magnitudes of the first |ts| modules. */
  function TotalMagnitude(p: Primitives, ts: seq<Vec>): real
    decreases |ts|
  {
    if ts == [] then 0.0 else TotalMagnitude(p, ts[..|ts| - 1]) + p.magnitude(ts[|ts| - 1])
  }

  /** Heading errors are never negative: magnitudes and absolute deltas are not. */
  lemma {:induction false} ErrorSumNonnegative(p: Primitives, ts: seq<Vec>, measuredDeg: Corner -> real)
    requires Lawful(p)
    requires |ts| <= 4
    ensures ErrorSum(p, ts, measuredDeg) >= 0.0
    decreases |ts|
  {
    if ts != [] {
      var k := |ts| - 1;
      ErrorSumNonnegative(p, ts[..k], measuredDeg);
      NonnegativeProduct(p.magnitude(ts[k]), Abs(p.deltaReversable(measuredDeg(CornerOf(k)), p.angleDeg(ts[k]))) / 90.0);
    }
  }

  /** The total magnitude is never negative. */
  lemma {:induction false} TotalMagnitudeNonnegative(p: Primitives, ts: seq<Vec>)
    requires Lawful(p)
    ensures TotalMagnitude(p, ts) >= 0.0
    decreases |ts|
  {
    if ts != [] {
      TotalMagnitudeNonnegative(p, ts[..|ts| - 1]);
    }
  }

  /**
   * The comparison error / total < 1 - threshold as Java evaluates it on
   * doubles. When total is 0 the quotient is NaN (error 0), +Infinity
   * (error > 0) or -Infinity (error < 0), and only the last compares less.
   */
  function DriveAllowed(error: real, total: real, threshold: real): bool
  {
    if total == 0.0 then error < 0.0 else error / total < 1.0 - threshold
  }

  /** The gate for one set of four targets and measured module headings. */
  function GateOpen(p: Primitives, ts: seq<Vec>, measuredDeg: Corner -> real, threshold: real): bool
    requires |ts| == 4
  {
    DriveAllowed(ErrorSum(p, ts, measuredDeg), TotalMagnitude(p, ts), threshold)
  }

  /**
   * Without the division: for a positive total the gate is open exactly when
   * the weighted error is below (1 - threshold) times the total magnitude.
   */
  lemma DriveAllowedWithoutDivision(error: real, total: real, threshold: real)
    requires total > 0.0
    ensures DriveAllowed(error, total, threshold) <==> error < (1.0 - threshold) * total
  {
    var q := error / total;
    var t := 1.0 - threshold;
    assert q * total == error;
    ProductSign(t - q, total);
    assert (t - q) * total == t * total - q * total;
  }

  lemma ProductSign(a: real, b: real)
    requires b > 0.0
    ensures a > 0.0 ==> a * b > 0.0
    ensures a <= 0.0 ==> a * b <= 0.0
  {
  }

  /** A zero total never lets go voltage through when the error is not negative. */
  lemma ZeroTotalBlocks(error: real, threshold: real)
    requires error >= 0.0
    ensures !DriveAllowed(error, 0.0, threshold)
  {
  }

  /** With threshold 1, the initial one, go voltage is never let through. */
  lemma FullThresholdBlocks(error: real, total: real)
    requires error >= 0.0 && total >= 0.0
    ensures !DriveAllowed(error, total, 1.0)
  {
    if total > 0.0 {
      DriveAllowedWithoutDivision(error, total, 1.0);
    }
  }

  /** A lower threshold lets through everything a higher one does. */
  lemma GateMonotone(error: real, total: real, lower: real, higher: real)
    requires lower <= higher
    requires DriveAllowed(error, total, higher)
    ensures DriveAllowed(error, total, lower)
  {
  }

  /** A boundary case at threshold 0.2: 0.75 passes, 0.85 does not. */
  lemma GateBoundaryExample()
    ensures DriveAllowed(0.75, 1.0, 0.2)
    ensures !DriveAllowed(0.85, 1.0, 0.2)
  {
  }

  /** A total of zero means every target has magnitude zero. */
  lemma {:induction false} ZeroTotalZeroTargets(p: Primitives, ts: seq<Vec>)
    requires Lawful(p)
    requires TotalMagnitude(p, ts) == 0.0
    ensures forall k :: 0 <= k < |ts| ==> p.magnitude(ts[k]) == 0.0
    decreases |ts|
  {
    if ts != [] {
      var front := ts[..|ts| - 1];
      TotalMagnitudeNonnegative(p, front);
      ZeroTotalZeroTargets(p, front);
      assert forall k :: 0 <= k < |front| ==> front[k] == ts[k];
    }
  }

  /** Modules pointing exactly at their targets contribute no error. */
  lemma {:induction false} AlignedNoError(p: Primitives, ts: seq<Vec>, measuredDeg: Corner -> real)
    requires |ts| <= 4
    requires forall k :: 0 <= k < |ts| ==> p.deltaReversable(measuredDeg(CornerOf(k)), p.angleDeg(ts[k])) == 0.0
    ensures ErrorSum(p, ts, measuredDeg) == 0.0
    decreases |ts|
  {
    if ts != [] {
      var front := ts[..|ts| - 1];
      assert forall k :: 0 <= k < |front| ==> front[k] == ts[k];
      AlignedNoError(p, front, measuredDeg);
    }
  }

  /** With all modules aligned, a nonzero command and a threshold below 1, go voltage flows. */
  lemma AlignedDrives(p: Primitives, ts: seq<Vec>, measuredDeg: Corner -> real, threshold: real)
    requires |ts| == 4
    requires forall k :: 0 <= k < 4 ==> p.deltaReversable(measuredDeg(CornerOf(k)), p.angleDeg(ts[k])) == 0.0
    requires TotalMagnitude(p, ts) > 0.0 && threshold < 1.0
    ensures GateOpen(p, ts, measuredDeg, threshold)
  {
    AlignedNoError(p, ts, measuredDeg);
  }

  /** The calls tick makes on the module owning target index k. */
  function ModuleOrders(p: Primitives, targets: Option<seq<Vec>>, open: bool, k: int): seq<Sent>
    requires 0 <= k < 4
    requires targets.Some? ==> |targets.value| == 4
  {
    var c := CornerOf(k);
    match targets
    case None => [Sent(c, SetVelocity(0.0))]
    case Some(ts) =>
      [Sent(c, SetGoVoltage(if open then p.magnitude(ts[k]) else 0.0)),
       Sent(c, SetTurnTarget(p.turnAngleDeg(ts[k])))]
  }

  /** The calls of tick's command loop for the first n modules. */
  function IssueCommands(p: Primitives, targets: Option<seq<Vec>>, open: bool, n: int): seq<Sent>
    requires 0 <= n <= 4
    requires targets.Some? ==> |targets.value| == 4
    decreases n
  {
    if n == 0 then [] else IssueCommands(p, targets, open, n - 1) + ModuleOrders(p, targets, open, n - 1)
  }

  /** The module commands that ModuleOrders sends to the module it addresses. */
  function OrdersFor(p: Primitives, targets: Option<seq<Vec>>, open: bool, k: int): seq<Command>
    requires 0 <= k < 4
    requires targets.Some? ==> |targets.value| == 4
  {
    match targets
    case None => [SetVelocity(0.0)]
    case Some(ts) => [SetGoVoltage(if open then p.magnitude(ts[k]) else 0.0), SetTurnTarget(p.turnAngleDeg(ts[k]))]
  }

  /** ModuleOrders reaches only the module it addresses. */
  lemma ModuleOrdersReceived(p: Primitives, targets: Option<seq<Vec>>, open: bool, k: int, c: Corner)
    requires 0 <= k < 4
    requires targets.Some? ==> |targets.value| == 4
    ensures Received(ModuleOrders(p, targets, open, k), c)
         == if CornerOf(k) == c then OrdersFor(p, targets, open, k) else []
  {
    var orders := ModuleOrders(p, targets, open, k);
    var mine := CornerOf(k) == c;
    assert Received([orders[0]], c) == Received([], c) + (if mine then [orders[0].command] else []);
    if targets.Some? {
      ReceivedAppend([orders[0]], [orders[1]], c);
      assert orders == [orders[0]] + [orders[1]];
      assert Received([orders[1]], c) == Received([], c) + (if mine then [orders[1].command] else []);
    } else {
      assert orders == [orders[0]];
    }
  }

  /** The command loop addresses each of the first n modules once, and no other. */
  lemma {:induction false} IssueReceived(p: Primitives, targets: Option<seq<Vec>>, open: bool, n: int, c: Corner)
    requires 0 <= n <= 4
    requires targets.Some? ==> |targets.value| == 4
    ensures Received(IssueCommands(p, targets, open, n), c)
         == if IndexOf(c) < n then OrdersFor(p, targets, open, IndexOf(c)) else []
    decreases n
  {
    if n > 0 {
      IssueReceived(p, targets, open, n - 1, c);
      ReceivedAppend(IssueCommands(p, targets, open, n - 1), ModuleOrders(p, targets, open, n - 1), c);
      ModuleOrdersReceived(p, targets, open, n - 1, c);
      assert CornerOf(n - 1) == c <==> IndexOf(c) == n - 1;
    }
  }

  /**
   * Everything one tick sends after the disabled check: the command loop
   * over the four modules, then every module's own tick.
   */
  function CycleCommands(p: Primitives, targets: Option<seq<Vec>>, measuredDeg: Corner -> real,
                         threshold: real, dTime: real): seq<Sent>
    requires targets.Some? ==> |targets.value| == 4
  {
    var open := targets.Some? && GateOpen(p, targets.value, measuredDeg, threshold);
    IssueCommands(p, targets, open, 4) + TickCommands(dTime)
  }

  /** With no targets each module gets setVelocity(0), then its tick, and nothing else. */
  lemma CycleWithoutTargets(p: Primitives, measuredDeg: Corner -> real, threshold: real, dTime: real, c: Corner)
    ensures Received(CycleCommands(p, None, measuredDeg, threshold, dTime), c) == [SetVelocity(0.0), Tick(dTime)]
  {
    ReceivedAppend(IssueCommands(p, None, false, 4), TickCommands(dTime), c);
    IssueReceived(p, None, false, 4, c);
    TickReceived(dTime, c);
  }

  /**
   * With targets each module gets its go voltage (its target magnitude if
   * the gate is open, 0 if not), its steering target, then its tick.
   */
  lemma CycleWithTargets(p: Primitives, ts: seq<Vec>, measuredDeg: Corner -> real, threshold: real, dTime: real, c: Corner)
    requires |ts| == 4
    ensures Received(CycleCommands(p, Some(ts), measuredDeg, threshold, dTime), c)
         == [SetGoVoltage(if GateOpen(p, ts, measuredDeg, threshold) then p.magnitude(ts[IndexOf(c)]) else 0.0),
             SetTurnTarget(p.turnAngleDeg(ts[IndexOf(c)])),
             Tick(dTime)]
  {
    var open := GateOpen(p, ts, measuredDeg, threshold);
    ReceivedAppend(IssueCommands(p, Some(ts), open, 4), TickCommands(dTime), c);
    IssueReceived(p, Some(ts), open, 4, c);
    TickReceived(dTime, c);
  }

  /**
   * After a cycle with targets, either every module drives at its target
   * magnitude or every module is at go voltage 0; every module steers to its
   * target heading, and every module has ticked once more.
   */
  lemma CycleAllOrNothing(p: Primitives, log: seq<Sent>, ts: seq<Vec>, measuredDeg: Corner -> real,
                          threshold: real, dTime: real)
    requires |ts| == 4
    ensures var after := log + CycleCommands(p, Some(ts), measuredDeg, threshold, dTime);
      && ((forall c :: StateOf(after, c).drive == Voltage(p.magnitude(ts[IndexOf(c)])))
          || (forall c :: StateOf(after, c).drive == Voltage(0.0)))
      && (forall c :: StateOf(after, c).turnTarget == Some(p.turnAngleDeg(ts[IndexOf(c)])))
      && (forall c :: StateOf(after, c).ticks == StateOf(log, c).ticks + [dTime])
  {
    var cycle := CycleCommands(p, Some(ts), measuredDeg, threshold, dTime);
    forall c
      ensures StateOf(log + cycle, c) == CycleState(p, StateOf(log, c), ts, measuredDeg, threshold, dTime, c)
    {
      StateAfter(log, cycle, c);
      CycleWithTargets(p, ts, measuredDeg, threshold, dTime, c);
      RunThree(StateOf(log, c), Received(cycle, c));
    }
  }

  /**
   * Targets within the supply (as power leaves them) mean that no module is
   * ever told to apply more than 12 V, whatever the gate decides.
   */
  lemma CycleWithinSupply(p: Primitives, log: seq<Sent>, ts: seq<Vec>, measuredDeg: Corner -> real,
                          threshold: real, dTime: real, c: Corner)
    requires Lawful(p)
    requires |ts| == 4
    requires forall k :: 0 <= k < 4 ==> Abs(p.magnitude(ts[k])) <= MaxVoltage
    ensures var drive := StateOf(log + CycleCommands(p, Some(ts), measuredDeg, threshold, dTime), c).drive;
      drive.Voltage? && 0.0 <= drive.volts <= MaxVoltage
  {
    CycleAllOrNothing(p, log, ts, measuredDeg, threshold, dTime);
    assert p.magnitude(ts[IndexOf(c)]) >= 0.0;
  }

  /** The state a module is left in by one cycle with targets. */
  function CycleState(p: Primitives, m: ModuleState, ts: seq<Vec>, measuredDeg: Corner -> real,
                      threshold: real, dTime: real, c: Corner): ModuleState
    requires |ts| == 4
  {
    var k := IndexOf(c);
    m.(drive := Voltage(if GateOpen(p, ts, measuredDeg, threshold) then p.magnitude(ts[k]) else 0.0),
       turnTarget := Some(p.turnAngleDeg(ts[k])),
       ticks := m.ticks + [dTime])
  }

  lemma RunThree(m: ModuleState, cmds: seq<Command>)
    requires |cmds| == 3
    ensures Run(m, cmds) == Step(Step(Step(m, cmds[0]), cmds[1]), cmds[2])
  {
    RunTwo(m, cmds[..2]);
    assert Run(m, cmds) == Step(Run(m, cmds[..2]), cmds[2]);
  }

  lemma RunTwo(m: ModuleState, cmds: seq<Command>)
    requires |cmds| == 2
    ensures Run(m, cmds) == Step(Step(m, cmds[0]), cmds[1])
  {
    assert cmds[..1][..0] == [];
    assert Run(m, cmds[..1]) == Step(m, cmds[0]);
  }

  /** After a cycle without targets every module is commanded to velocity 0 and has ticked once more. */
  lemma CycleStopsModules(p: Primitives, log: seq<Sent>, measuredDeg: Corner -> real, threshold: real, dTime: real, c: Corner)
    ensures var after := StateOf(log + CycleCommands(p, None, measuredDeg, threshold, dTime), c);
      && after.drive == Velocity(0.0)
      && after.turnTarget == StateOf(log, c).turnTarget
      && after.ticks == StateOf(log, c).ticks + [dTime]
  {
    var cycle := CycleCommands(p, None, measuredDeg, threshold, dTime);
    StateAfter(log, cycle, c);
    CycleWithoutTargets(p, measuredDeg, threshold, dTime, c);
    RunTwo(StateOf(log, c), Received(cycle, c));
  }

  /**
   * A zero total closes the gate (the quotient is NaN in the source); the
   * targets then all have magnitude 0, so reading the ratio as 0 instead
   * (open exactly when 0 < 1 - threshold) sends the very same calls.
   */
  lemma ZeroTotalSameVoltages(p: Primitives, ts: seq<Vec>, measuredDeg: Corner -> real, threshold: real, dTime: real)
    requires Lawful(p)
    requires |ts| == 4
    requires TotalMagnitude(p, ts) == 0.0
    ensures !GateOpen(p, ts, measuredDeg, threshold)
    ensures forall k :: 0 <= k < 4 ==> p.magnitude(ts[k]) == 0.0
    ensures CycleCommands(p, Some(ts), measuredDeg, threshold, dTime)
         == IssueCommands(p, Some(ts), 0.0 < 1.0 - threshold, 4) + TickCommands(dTime)
  {
    ErrorSumNonnegative(p, ts, measuredDeg);
    ZeroTotalBlocks(ErrorSum(p, ts, measuredDeg), threshold);
    ZeroTotalZeroTargets(p, ts);
    VerdictIrrelevant(p, ts, 4);
  }

  /** When every target has magnitude 0 the gate's verdict does not change the calls sent. */
  lemma {:induction false} VerdictIrrelevant(p: Primitives, ts: seq<Vec>, n: int)
    requires |ts| == 4 && 0 <= n <= 4
    requires forall k :: 0 <= k < 4 ==> p.magnitude(ts[k]) == 0.0
    ensures IssueCommands(p, Some(ts), true, n) == IssueCommands(p, Some(ts), false, n)
    decreases n
  {
    if n > 0 {
      VerdictIrrelevant(p, ts, n - 1);
    }
  }

  /** With threshold 1 no cycle lets go voltage through. */
  lemma FullThresholdNeverDrives(p: Primitives, ts: seq<Vec>, measuredDeg: Corner -> real)
    requires Lawful(p)
    requires |ts| == 4
    ensures !GateOpen(p, ts, measuredDeg, 1.0)
  {
    ErrorSumNonnegative(p, ts, measuredDeg);
    TotalMagnitudeNonnegative(p, ts);
    FullThresholdBlocks(ErrorSum(p, ts, measuredDeg), TotalMagnitude(p, ts));
  }
}
