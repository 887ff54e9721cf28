/**
 * The four swerve modules as the controller sees them: it only calls
 * setGoVoltage, setTurnTarget, setVelocity, setConstants and tick on them.
 * Every call is recorded, in order, in a log of `Sent` entries; the state a
 * module is in is what the calls it received leave behind.
 */
module ModuleCommands {
  import opened Wrappers

  datatype Corner = FrontLeft | FrontRight | BackLeft | BackRight

  /** PDConstant: proportional and derivative gains. */
  datatype PDConstant = PDConstant(proportional: real, derivative: real)

  /** The calls the controller makes on a module. */
  datatype Command =
    | SetGoVoltage(volts: real)
    | SetTurnTarget(headingDeg: real)
    | SetVelocity(speed: real)
    | SetConstants(constant: PDConstant)
    | Tick(dTime: real)

  /** One call, with the module it was made on. */
  datatype Sent = Sent(corner: Corner, command: Command)

  /**
   * The module that owns target index k, i.e. quadrant k + 1: the order of
   * the array literal {frontRight, frontLeft, backLeft, backRight} that
   * tick and stopGoPower walk.
   */
  function CornerOf(k: int): Corner
    requires 0 <= k < 4
  {
    if k == 0 then FrontRight else if k == 1 then FrontLeft else if k == 2 then BackLeft else BackRight
  }

  /** The target index of a module; the inverse of CornerOf. */
  function IndexOf(c: Corner): (k: int)
    ensures 0 <= k < 4 && CornerOf(k) == c
    ensures forall j :: 0 <= j < 4 && CornerOf(j) == c ==> j == k
  {
    match c
    case FrontRight => 0
    case FrontLeft => 1
    case BackLeft => 2
    case BackRight => 3
  }

  /** The calls module c received, in order. */
  function Received(log: seq<Sent>, c: Corner): (r: seq<Command>)
    ensures |r| <= |log|
    decreases |log|
  {
    if log == [] then []
    else
      var last := log[|log| - 1];
      Received(log[..|log| - 1], c) + (if last.corner == c then [last.command] else [])
  }

  /** Splitting a log splits what each module received. */
  lemma {:induction false} ReceivedAppend(a: seq<Sent>, b: seq<Sent>, c: Corner)
    ensures Received(a + b, c) == Received(a, c) + Received(b, c)
    decreases |b|
  {
    if b == [] {
      assert a + b == a;
    } else {
      var front := b[..|b| - 1];
      ReceivedAppend(a, front, c);
      assert (a + b)[..|a + b| - 1] == a + front;
    }
  }

  /** What a module was last told to do with its drive motor. */
  datatype DriveDemand = NoDemand | Voltage(volts: real) | Velocity(speed: real)

  /** The effect of the calls a module received. */
  datatype ModuleState = ModuleState(
    drive: DriveDemand,
    turnTarget: Option<real>,
    constants: Option<PDConstant>,
    ticks: seq<real>)

  /** A module nothing has been sent to. */
  const Idle: ModuleState := ModuleState(NoDemand, None, None, [])

  /** One call on a module. */
  function Step(m: ModuleState, cmd: Command): ModuleState
  {
    match cmd
    case SetGoVoltage(v) => m.(drive := Voltage(v))
    case SetVelocity(v) => m.(drive := Velocity(v))
    case SetTurnTarget(h) => m.(turnTarget := Some(h))
    case SetConstants(k) => m.(constants := Some(k))
    case Tick(dt) => m.(ticks := m.ticks + [dt])
  }

  /** A sequence of calls on a module, in order. */
  function Run(m: ModuleState, cmds: seq<Command>): ModuleState
    decreases |cmds|
  {
    if cmds == [] then m else Step(Run(m, cmds[..|cmds| - 1]), cmds[|cmds| - 1])
  }

  /** Running two batches of calls is running the first, then the second. */
  lemma {:induction false} RunAppend(m: ModuleState, a: seq<Command>, b: seq<Command>)
    ensures Run(m, a + b) == Run(Run(m, a), b)
    decreases |b|
  {
    if b == [] {
      assert a + b == a;
    } else {
      var front := b[..|b| - 1];
      RunAppend(m, a, front);
      assert (a + b)[..|a + b| - 1] == a + front;
    }
  }

  /** The state of module c after everything in the log. */
  function StateOf(log: seq<Sent>, c: Corner): ModuleState
  {
    Run(Idle, Received(log, c))
  }

  /** The state of module c after a log extended by more calls. */
  lemma StateAfter(log: seq<Sent>, more: seq<Sent>, c: Corner)
    ensures StateOf(log + more, c) == Run(StateOf(log, c), Received(more, c))
  {
    ReceivedAppend(log, more, c);
    RunAppend(Idle, Received(log, c), Received(more, c));
  }

  /** stopGoPower's calls: go voltage 0 on every module. */
  function StopCommands(): seq<Sent>
  {
    [Sent(FrontRight, SetGoVoltage(0.0)), Sent(FrontLeft, SetGoVoltage(0.0)),
     Sent(BackLeft, SetGoVoltage(0.0)), Sent(BackRight, SetGoVoltage(0.0))]
  }

  /** The end of tick: every module's own tick, front-left first. */
  function TickCommands(dTime: real): seq<Sent>
  {
    [Sent(FrontLeft, Tick(dTime)), Sent(FrontRight, Tick(dTime)),
     Sent(BackLeft, Tick(dTime)), Sent(BackRight, Tick(dTime))]
  }

  /** setConstants' calls: the same gains to every module. */
  function ConstantsCommands(constant: PDConstant): seq<Sent>
  {
    [Sent(FrontLeft, SetConstants(constant)), Sent(FrontRight, SetConstants(constant)),
     Sent(BackLeft, SetConstants(constant)), Sent(BackRight, SetConstants(constant))]
  }

  /** Every module receives exactly one call from a four-entry broadcast addressed to all four. */
  lemma BroadcastReceived(log: seq<Sent>, cmd: Command, c: Corner)
    requires |log| == 4
    requires forall i :: 0 <= i < 4 ==> log[i].command == cmd
    requires forall i, j :: 0 <= i < j < 4 ==> log[i].corner != log[j].corner
    ensures Received(log, c) == [cmd]
  {
    assert log == [log[0]] + [log[1]] + [log[2]] + [log[3]];
    ReceivedAppend([log[0]] + [log[1]] + [log[2]], [log[3]], c);
    ReceivedAppend([log[0]] + [log[1]], [log[2]], c);
    ReceivedAppend([log[0]], [log[1]], c);
    assert Received([log[0]], c) == Received([], c) + (if log[0].corner == c then [cmd] else []);
    assert Received([log[1]], c) == Received([], c) + (if log[1].corner == c then [cmd] else []);
    assert Received([log[2]], c) == Received([], c) + (if log[2].corner == c then [cmd] else []);
    assert Received([log[3]], c) == Received([], c) + (if log[3].corner == c then [cmd] else []);
  }

  /** stopGoPower tells every module, once, to drop its go voltage to 0. */
  lemma StopReceived(c: Corner)
    ensures Received(StopCommands(), c) == [SetGoVoltage(0.0)]
  {
    BroadcastReceived(StopCommands(), SetGoVoltage(0.0), c);
  }

  /** Every module's own tick runs exactly once at the end of a cycle. */
  lemma TickReceived(dTime: real, c: Corner)
    ensures Received(TickCommands(dTime), c) == [Tick(dTime)]
  {
    BroadcastReceived(TickCommands(dTime), Tick(dTime), c);
  }

  /** setConstants reaches every module exactly once. */
  lemma ConstantsReceived(constant: PDConstant, c: Corner)
    ensures Received(ConstantsCommands(constant), c) == [SetConstants(constant)]
  {
    BroadcastReceived(ConstantsCommands(constant), SetConstants(constant), c);
  }

  /**
   * After stopGoPower every module is at go voltage 0 and nothing else
   * about it has changed (steering targets stay as last commanded).
   */
  lemma StopState(log: seq<Sent>, c: Corner)
    ensures StateOf(log + StopCommands(), c) == StateOf(log, c).(drive := Voltage(0.0))
  {
    StateAfter(log, StopCommands(), c);
    StopReceived(c);
    assert Run(StateOf(log, c), [SetGoVoltage(0.0)]) == Step(Run(StateOf(log, c), []), SetGoVoltage(0.0));
  }

  /** Stopping twice leaves every module exactly as stopping once does. */
  lemma StopIdempotent(log: seq<Sent>, c: Corner)
    ensures StateOf(log + StopCommands() + StopCommands(), c) == StateOf(log + StopCommands(), c)
  {
    StopState(log, c);
    StopState(log + StopCommands(), c);
  }
}
