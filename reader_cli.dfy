/** The `vassar-servo` command of the older reader package (`main` of its
    command-line interface) after argument parsing: parse the motor list,
    find the port, build and connect a reader, read once or until
    interrupted, and disconnect whatever was built. */
module ReaderCli {
  import opened Errors
  import opened Text
  import opened Bus
  import opened MotorIds
  import opened Endings
  import opened SyncRead
  import opened Pacing
  import opened ReadLoop
  import PortDiscovery
  import Reader

  /** `--once`, or continuous reading at `--hz`. */
  datatype Command = Once | Continuous(hz: real)

  /** The traffic of the command on a connected reader of the motors
      `ids`, and what it produced: one group read of their positions, or
      the continuous reading loop at `hz`, which sends nothing and raises
      ZeroDivisionError for a zero frequency. */
  predicate ReadSteps(ids: seq<int>, command: Command, elapsed: seq<real>, t: seq<Exchange>,
                      positions: Result<map<int, int>>, run: Outcome,
                      frames: seq<map<int, int>>, sleeps: seq<Option<real>>, rounds: seq<seq<Exchange>>) {
    match command
    case Once =>
      IsGroupRead(ids, Reader.PRESENT_POSITION_ADDR, Reader.POSITION_DATA_LENGTH, t)
      && positions == GroupReadOutcome(ids, Reader.PRESENT_POSITION_ADDR, Reader.POSITION_DATA_LENGTH, t)
    case Continuous(hz) =>
      if LoopTime(hz).Err? then
        t == [] && run == Fail(ZeroDivisionError)
      else
        PacedRun(ids, Reader.PRESENT_POSITION_ADDR, Reader.POSITION_DATA_LENGTH, LoopTime(hz).value, elapsed, t, run,
                 frames, sleeps, rounds)
  }

  /** How the try block ends after the command. */
  function ReadEnding(command: Command, positions: Result<map<int, int>>, run: Outcome): Ending {
    match command
    case Once => if positions.Ok? then Returned else Raised(positions.error)
    case Continuous(_) => EndingOf(run)
  }

  /** The `try`/`finally` of `main` once a reader exists: its `connect`
      (`opening`); when that worked, the command (`work`) and the
      closePort of `disconnect` (`closing`); when it failed, its error and
      nothing more, since `disconnect` does nothing on a reader that never
      connected. */
  predicate ReaderRuns(ids: seq<int>, servoType: string, port: string, baudrate: int, command: Command, elapsed: seq<real>,
                       opening: seq<Exchange>, work: seq<Exchange>, closing: seq<Exchange>,
                       connection: Outcome, positions: Result<map<int, int>>, run: Outcome,
                       frames: seq<map<int, int>>, sleeps: seq<Option<real>>, rounds: seq<seq<Exchange>>, ending: Ending) {
    Reader.ReaderOpens(servoType, port, baudrate, opening, connection)
    && if connection.Fail? then
         work == [] && closing == [] && ending == Raised(connection.error)
       else
         ReadSteps(ids, command, elapsed, work, positions, run, frames, sleeps, rounds)
         && ending == ReadEnding(command, positions, run)
         && Requests(closing) == [ClosePort]
  }

  /** `main` leaves the port closed: nothing was sent for an unknown servo
      type; otherwise the first request opens the port, and the last one
      closes it exactly when it opened. */
  lemma ReaderRunsLeavePortClosed(ids: seq<int>, servoType: string, port: string, baudrate: int, command: Command,
                                  elapsed: seq<real>, opening: seq<Exchange>, work: seq<Exchange>, closing: seq<Exchange>,
                                  connection: Outcome, positions: Result<map<int, int>>, run: Outcome,
                                  frames: seq<map<int, int>>, sleeps: seq<Option<real>>, rounds: seq<seq<Exchange>>, ending: Ending)
    requires ReaderRuns(ids, servoType, port, baudrate, command, elapsed, opening, work, closing,
                        connection, positions, run, frames, sleeps, rounds, ending)
    ensures var t := opening + work + closing;
            (t == [] <==> Reader.ProtocolFor(servoType).None?)
            && (t != [] ==> t[0].request == OpenPort(port) && (t[0].reply.ok <==> t[|t| - 1].request == ClosePort))
  {
    var t := opening + work + closing;
    if t != [] {
      assert t[0] == opening[0];
      if connection == Pass {
        assert t[|t| - 1] == closing[0];
      } else if opening[0].reply.ok {
        assert t == opening;
      }
    }
  }

  /** Continuous reading exits with 0 exactly when the port opened, the
      frequency is not zero and no read failed before Ctrl+C; such a run
      displayed one reading of requested motors per iteration, and each
      iteration lasted at least the period. */
  lemma ContinuousExit(ids: seq<int>, servoType: string, port: string, baudrate: int, hz: real,
                       elapsed: seq<real>, opening: seq<Exchange>, work: seq<Exchange>, closing: seq<Exchange>,
                       connection: Outcome, positions: Result<map<int, int>>, run: Outcome,
                       frames: seq<map<int, int>>, sleeps: seq<Option<real>>, rounds: seq<seq<Exchange>>, ending: Ending)
    requires ReaderRuns(ids, servoType, port, baudrate, Continuous(hz), elapsed, opening, work, closing,
                        connection, positions, run, frames, sleeps, rounds, ending)
    ensures ExitStatus(ending) == 0 <==> connection == Pass && hz != 0.0 && run == Pass
    ensures ExitStatus(ending) == 0 ==>
              |frames| == |elapsed|
              && (forall i, k :: 0 <= i < |frames| && k in frames[i] ==> k in ids)
              && (forall i :: 0 <= i < |frames| ==> elapsed[i] + sleeps[i].GetOr(0.0) >= 1.0 / hz)
  {
    if connection == Pass && hz != 0.0 {
      PacedRunFrames(ids, Reader.PRESENT_POSITION_ADDR, Reader.POSITION_DATA_LENGTH, LoopTime(hz).value, elapsed, work, run,
                     frames, sleeps, rounds);
    }
  }

  /** `main`. For continuous reading, `elapsed` holds how long each
      iteration took before Ctrl+C, which the reader swallows. A reader
      that was built is disconnected whatever happened after. */
  method ReaderMain(motorIdsArg: string, port: Option<string>, baudrate: int, servoType: string, command: Command,
                    elapsed: seq<real>, system: string, devices: seq<string>, bus: Bus)
    returns (ending: Ending, reader: Option<Reader.ServoReader>,
             ghost opening: seq<Exchange>, ghost work: seq<Exchange>, ghost closing: seq<Exchange>,
             ghost connection: Outcome, ghost positions: Result<map<int, int>>, ghost run: Outcome,
             ghost frames: seq<map<int, int>>, ghost sleeps: seq<Option<real>>, ghost rounds: seq<seq<Exchange>>)
    modifies bus
    ensures Extends(old(bus.history), bus.history)
    ensures ParseMotorIds(motorIdsArg).Err? ==>
              ending == Raised(ValueError(InvalidMotorIdsFormat(motorIdsArg)))
    ensures ParseMotorIds(motorIdsArg).Ok? && PortDiscovery.ResolvePort(port, system, devices).Err? ==>
              ending == Raised(PortNotFoundError)
    ensures reader.Some? <==>
              ParseMotorIds(motorIdsArg).Ok? && PortDiscovery.ResolvePort(port, system, devices).Ok?
    ensures reader.None? ==> ending.Raised? && bus.history == old(bus.history)
    ensures reader.Some? ==>
              var rd := reader.value;
              fresh(rd) && rd.Valid() && !rd.connected && rd.bus == bus
              && rd.port == PortDiscovery.ResolvePort(port, system, devices).value
              && rd.baudrate == baudrate && rd.servoType == Lower(servoType)
    ensures reader.Some? ==>
              var rd := reader.value;
              Added(old(bus.history), bus.history) == opening + work + closing
              && ReaderRuns(ParseMotorIds(motorIdsArg).value, rd.servoType, rd.port, rd.baudrate, command, elapsed,
                            opening, work, closing, connection, positions, run, frames, sleeps, rounds, ending)
  {
    opening, work, closing := [], [], [];
    connection, positions, run := Pass, Ok(map[]), Pass;
    frames, sleeps, rounds := [], [], [];
    reader := None;
    var ids := ParseMotorIds(motorIdsArg);
    if ids.Err? {
      return Raised(ids.error), None, opening, work, closing, connection, positions, run, frames, sleeps, rounds;
    }
    var resolved := PortDiscovery.ResolvePort(port, system, devices);
    if resolved.Err? {
      return Raised(resolved.error), None, opening, work, closing, connection, positions, run, frames, sleeps, rounds;
    }
    PortDiscovery.ResolvePortIdempotent(port, system, devices);
    var built := Reader.NewServoReader(Some(resolved.value), baudrate, servoType, system, devices, bus);
    var rd := built.value;
    reader := Some(rd);
    ending, opening, work, closing, connection, positions, run, frames, sleeps, rounds
      := ConnectAndRead(rd, ids.value, command, elapsed);
  }

  /** The `try`/`finally` of `main` once the reader exists: connect, run
      the command, and disconnect whatever happened. */
  method ConnectAndRead(rd: Reader.ServoReader, ids: seq<int>, command: Command, elapsed: seq<real>)
    returns (ending: Ending, ghost opening: seq<Exchange>, ghost work: seq<Exchange>, ghost closing: seq<Exchange>,
             ghost connection: Outcome, ghost positions: Result<map<int, int>>, ghost run: Outcome,
             ghost frames: seq<map<int, int>>, ghost sleeps: seq<Option<real>>, ghost rounds: seq<seq<Exchange>>)
    requires rd.Valid() && !rd.connected
    modifies rd, rd.bus
    ensures rd.Valid() && !rd.connected
    ensures Extends(old(rd.bus.history), rd.bus.history)
    ensures Added(old(rd.bus.history), rd.bus.history) == opening + work + closing
    ensures ReaderRuns(ids, rd.servoType, rd.port, rd.baudrate, command, elapsed,
                       opening, work, closing, connection, positions, run, frames, sleeps, rounds, ending)
  {
    positions, run, work := Ok(map[]), Pass, [];
    frames, sleeps, rounds := [], [], [];
    ghost var h0 := rd.bus.history;
    var outcome := rd.Connect();
    connection := outcome;
    opening := Added(h0, rd.bus.history);
    if outcome.Fail? {
      ending := Raised(outcome.error);
    } else {
      ghost var h1 := rd.bus.history;
      var read, finished, shown;
      ending, read, finished, shown, sleeps, rounds := ReadCommand(rd, ids, command, elapsed);
      positions, run, frames := read, finished, shown;
      work := Added(h1, rd.bus.history);
    }
    ghost var h2 := rd.bus.history;
    rd.Disconnect();
    closing := Added(h2, rd.bus.history);
    AddedTriple(h0, rd.bus.history, opening, work, closing);
  }

  /** The command of `main` on a connected reader: the positions read once,
      or the continuous loop, which connects nothing since the reader is
      already connected. */
  method ReadCommand(rd: Reader.ServoReader, ids: seq<int>, command: Command, elapsed: seq<real>)
    returns (ending: Ending, positions: Result<map<int, int>>, run: Outcome,
             frames: seq<map<int, int>>, sleeps: seq<Option<real>>, ghost rounds: seq<seq<Exchange>>)
    requires rd.Valid() && rd.connected
    modifies rd, rd.bus
    ensures rd.Valid() && rd.connected
    ensures Extends(old(rd.bus.history), rd.bus.history)
    ensures ReadSteps(ids, command, elapsed, Added(old(rd.bus.history), rd.bus.history), positions, run, frames, sleeps, rounds)
    ensures ending == ReadEnding(command, positions, run)
  {
    positions, run, frames, sleeps, rounds := Ok(map[]), Pass, [], [], [];
    match command
    case Once =>
      positions := rd.ReadPositions(ids);
      ending := if positions.Ok? then Returned else Raised(positions.error);
    case Continuous(hz) =>
      ghost var connection, setup;
      run, frames, sleeps, connection, setup, rounds := rd.ReadPositionsContinuous(ids, hz, elapsed);
      ending := EndingOf(run);
  }
}
