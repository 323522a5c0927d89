/** The `vassar-servo` command (`main` of the controller package's
    command-line interface) after argument parsing: parse the motor list,
    find the port, build and connect a controller, run one command, and
    disconnect whatever was built. */
module ControllerCli {
  import opened Errors
  import opened Bus
  import opened MotorIds
  import opened Endings
  import opened SyncRead
  import opened Connection
  import PortDiscovery
  import Controller

  /** What `--set-middle`, `--once` or neither selects. */
  datatype Command = SetMiddle | Once | Continuous(hz: real)

  /** `--set-middle`: `sys.exit(0 if success else 1)`, or the exception
      `set_middle_position` raised. */
  function MiddleEnding(r: Result<bool>): (e: Ending) {
    if r.Err? then Raised(r.error) else SystemExit(if r.value then 0 else 1)
  }

  /** `--set-middle` exits with 0 exactly when every servo ended up at the
      middle position, and with 1 otherwise, raised errors included. */
  lemma SetMiddleStatus(r: Result<bool>)
    ensures ExitStatus(MiddleEnding(r)) == 0 <==> r == Ok(true)
    ensures ExitStatus(MiddleEnding(r)) == 0 || ExitStatus(MiddleEnding(r)) == 1
  {
  }

  /** `main` resolves the port before building the controller, which then
      does no detection of its own; construction comes out as if it had
      been given the original option. */
  lemma ResolvedPortConfigures(servoType: string, port: Option<string>, system: string, devices: seq<string>)
    requires PortDiscovery.ResolvePort(port, system, devices).Ok?
    ensures Controller.Configure(servoType, Some(PortDiscovery.ResolvePort(port, system, devices).value), system, devices)
            == Controller.Configure(servoType, port, system, devices)
  {
    PortDiscovery.ResolvePortIdempotent(port, system, devices);
  }

  /** The traffic of one command on a connected controller of the servos
      `ids` of type `servoType`, and what the command answered:
      `set_middle_position` over every configured servo, one group read of
      their positions, or the continuous reading loop at `hz`. */
  predicate CommandSteps(ids: seq<int>, servoType: string, command: Command, t: seq<Exchange>,
                         answer: Result<bool>, positions: Result<map<int, int>>) {
    match command
    case SetMiddle =>
      (servoType == "hls" ==> Controller.HlsMiddleSteps(ids, t, answer))
      && (servoType == "sts" ==> Controller.StsMiddleSteps(ids, t, answer))
    case Once =>
      IsGroupRead(ids, Controller.PRESENT_POSITION_ADDR, Controller.POSITION_DATA_LENGTH, t)
      && positions == Controller.ReadOutcome(ids, t)
    case Continuous(hz) =>
      Requests(t) == [ReadPositionsContinuousOp(hz)]
  }

  /** How the try block ends after the command: the exit of
      `--set-middle`, the error of a failed single read, or whatever ended
      the continuous loop. */
  function CommandEnding(command: Command, continuous: Ending, answer: Result<bool>,
                         positions: Result<map<int, int>>): Ending {
    match command
    case SetMiddle => MiddleEnding(answer)
    case Once => if positions.Ok? then Returned else Raised(positions.error)
    case Continuous(_) => continuous
  }

  /** The `try`/`finally` of `main` once a controller of the servos `ids`
      exists: an attempt to open `port` at `baudrate` (`opening`); when it
      worked, the command (`work`), then `disconnect`'s torque-disable
      writes and closePort (`closing`); when it failed, its
      ConnectionError and nothing more, since `disconnect` does nothing on
      a controller that never connected. */
  predicate Runs(ids: seq<int>, servoType: string, port: string, baudrate: int, command: Command, continuous: Ending,
                 opening: seq<Exchange>, work: seq<Exchange>, closing: seq<Exchange>,
                 connection: Outcome, answer: Result<bool>, positions: Result<map<int, int>>, ending: Ending) {
    Opens(port, baudrate, opening, connection)
    && if connection.Fail? then
         work == [] && closing == [] && ending == Raised(connection.error)
       else
         CommandSteps(ids, servoType, command, work, answer, positions)
         && ending == CommandEnding(command, continuous, answer, positions)
         && |closing| == |ids| + 1 && Controller.DisablesAll(ids, closing[..|ids|])
         && closing[|ids|].request == ClosePort
  }

  /** `main` leaves the port closed: either it never opened, or the last
      request of the run closes it; and a run that connected disabled the
      torque of every configured servo before closing. */
  lemma RunsLeavePortClosed(ids: seq<int>, servoType: string, port: string, baudrate: int, command: Command,
                            continuous: Ending, opening: seq<Exchange>, work: seq<Exchange>, closing: seq<Exchange>,
                            connection: Outcome, answer: Result<bool>, positions: Result<map<int, int>>, ending: Ending)
    requires Runs(ids, servoType, port, baudrate, command, continuous, opening, work, closing, connection, answer, positions, ending)
    ensures var t := opening + work + closing;
            |t| > 0 && t[0].request == OpenPort(port)
            && (t[0].reply.ok <==> t[|t| - 1].request == ClosePort)
    ensures connection == Pass ==>
              var t := opening + work + closing;
              forall j :: 0 <= j < |ids| ==>
                t[|t| - |ids| - 1 + j].request == Write1Byte(ids[j], Controller.TORQUE_ENABLE_ADDR, 0)
  {
    var t := opening + work + closing;
    assert t[0] == opening[0];
    if connection == Pass {
      assert t[|t| - 1] == closing[|ids|];
      forall j | 0 <= j < |ids|
        ensures t[|t| - |ids| - 1 + j].request == Write1Byte(ids[j], Controller.TORQUE_ENABLE_ADDR, 0)
      {
        assert t[|t| - |ids| - 1 + j] == closing[..|ids|][j];
      }
    } else if opening[0].reply.ok {
      assert t == opening;
    }
  }

  /** `--set-middle` exits with 0 exactly when the port opened and
      `set_middle_position` answered True; an HLS run that exits with 0
      calibrated every servo and read back positions within the tolerance
      of the middle for every servo that answered. */
  lemma SetMiddleExit(ids: seq<int>, servoType: string, port: string, baudrate: int, continuous: Ending,
                      opening: seq<Exchange>, work: seq<Exchange>, closing: seq<Exchange>,
                      connection: Outcome, answer: Result<bool>, positions: Result<map<int, int>>, ending: Ending)
    requires Runs(ids, servoType, port, baudrate, SetMiddle, continuous, opening, work, closing, connection, answer, positions, ending)
    ensures ExitStatus(ending) == 0 <==> connection == Pass && answer == Ok(true)
    ensures ExitStatus(ending) == 0 && servoType == "hls" ==>
              Controller.Calibrates(ids, work[..|ids|]) && Controller.CalibrationOk(work[..|ids|])
              && Controller.Verifies(ids, work[|ids|..], answer)
              && Controller.ReadOutcome(ids, work[|ids|..]).Ok?
              && Controller.NearMiddle(Controller.ReadOutcome(ids, work[|ids|..]).value)
  {
    if connection == Pass {
      SetMiddleStatus(answer);
    }
  }

  /** `main`. The ending of the continuous reading loop, whose definition
      is not part of this model, is the input `continuous`. A controller
      that was built is disconnected whatever happened after. */
  method RunMain(motorIdsArg: string, port: Option<string>, baudrate: int, servoType: string, command: Command,
                 continuous: Ending, system: string, devices: seq<string>, bus: Bus)
    returns (ending: Ending, controller: Option<Controller.ServoController>,
             ghost opening: seq<Exchange>, ghost work: seq<Exchange>, ghost closing: seq<Exchange>,
             ghost connection: Outcome, ghost answer: Result<bool>, ghost positions: Result<map<int, int>>)
    modifies bus
    ensures Extends(old(bus.history), bus.history)
    ensures ParseMotorIds(motorIdsArg).Err? ==>
              ending == Raised(ValueError(InvalidMotorIdsFormat(motorIdsArg)))
    ensures ParseMotorIds(motorIdsArg).Ok? && PortDiscovery.ResolvePort(port, system, devices).Err? ==>
              ending == Raised(PortNotFoundError)
    ensures controller.Some? <==>
              ParseMotorIds(motorIdsArg).Ok? && Controller.Configure(servoType, port, system, devices).Ok?
    ensures controller.None? ==> ending.Raised? && bus.history == old(bus.history)
    ensures controller.Some? ==>
              var c := controller.value;
              fresh(c) && c.Valid() && !c.connected && c.bus == bus
              && c.servoIds == ParseMotorIds(motorIdsArg).value
              && c.servoType == Controller.Configure(servoType, port, system, devices).value.servoType
              && c.port == Controller.Configure(servoType, port, system, devices).value.port
              && c.baudrate == baudrate
    ensures controller.Some? ==>
              var c := controller.value;
              Added(old(bus.history), bus.history) == opening + work + closing
              && Runs(c.servoIds, c.servoType, c.port, c.baudrate, command, continuous,
                      opening, work, closing, connection, answer, positions, ending)
  {
    opening, work, closing := [], [], [];
    connection, answer, positions := Pass, Ok(false), Ok(map[]);
    controller := None;
    var ids := ParseMotorIds(motorIdsArg);
    if ids.Err? {
      return Raised(ids.error), None, opening, work, closing, connection, answer, positions;
    }
    var resolved := PortDiscovery.ResolvePort(port, system, devices);
    if resolved.Err? {
      return Raised(resolved.error), None, opening, work, closing, connection, answer, positions;
    }
    ResolvedPortConfigures(servoType, port, system, devices);
    var built := Controller.NewServoController(ids.value, servoType, Some(resolved.value), baudrate, system, devices, bus);
    if built.Err? {
      return Raised(built.error), None, opening, work, closing, connection, answer, positions;
    }
    var c := built.value;
    controller := Some(c);
    ending, opening, work, closing, connection, answer, positions := ConnectAndRun(c, command, continuous);
  }

  /** The `try`/`finally` of `main` once the controller exists: connect,
      run the command, and disconnect whatever happened. */
  method ConnectAndRun(c: Controller.ServoController, command: Command, continuous: Ending)
    returns (ending: Ending, ghost opening: seq<Exchange>, ghost work: seq<Exchange>, ghost closing: seq<Exchange>,
             ghost connection: Outcome, ghost answer: Result<bool>, ghost positions: Result<map<int, int>>)
    requires c.Valid() && !c.connected
    modifies c, c.bus
    ensures c.Valid() && !c.connected
    ensures Extends(old(c.bus.history), c.bus.history)
    ensures Added(old(c.bus.history), c.bus.history) == opening + work + closing
    ensures Runs(c.servoIds, c.servoType, c.port, c.baudrate, command, continuous,
                 opening, work, closing, connection, answer, positions, ending)
  {
    answer, positions, work := Ok(false), Ok(map[]), [];
    ghost var h0 := c.bus.history;
    var outcome := c.Connect();
    connection := outcome;
    opening := Added(h0, c.bus.history);
    if outcome.Fail? {
      ending := Raised(outcome.error);
    } else {
      ghost var h1 := c.bus.history;
      var read, success;
      ending, read, success := RunCommand(c, command, continuous);
      positions, answer := read, success;
      work := Added(h1, c.bus.history);
    }
    ghost var h2 := c.bus.history;
    c.Disconnect();
    closing := Added(h2, c.bus.history);
    AddedTriple(h0, c.bus.history, opening, work, closing);
  }

  /** The command of `main` on a connected controller. */
  method RunCommand(c: Controller.ServoController, command: Command, continuous: Ending)
    returns (ending: Ending, positions: Result<map<int, int>>, answer: Result<bool>)
    requires c.Valid() && c.connected
    modifies c.bus
    ensures Extends(old(c.bus.history), c.bus.history)
    ensures CommandSteps(c.servoIds, c.servoType, command, Added(old(c.bus.history), c.bus.history), answer, positions)
    ensures ending == CommandEnding(command, continuous, answer, positions)
  {
    positions, answer := Ok(map[]), Ok(false);
    match command
    case SetMiddle =>
      answer := c.SetMiddlePosition(None);
      ending := MiddleEnding(answer);
    case Once =>
      positions := c.ReadPositions(None);
      ending := if positions.Ok? then Returned else Raised(positions.error);
    case Continuous(hz) =>
      c.ReadPositionsContinuous(hz);
      ending := continuous;
  }
}
