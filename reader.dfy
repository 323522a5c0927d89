/** `ServoReader`, the older read-only class: the same open/closed
    connection as the controller, for the servo families `sms_sts`, `hls`
    and `scscl`, without torque handling, plus a paced reading loop. */
module Reader {
  import opened Errors
  import opened Text
  import opened Bus
  import opened SyncRead
  import opened Connection
  import opened Pacing
  import opened ReadLoop
  import PortDiscovery

  const PRESENT_POSITION_ADDR := 56
  const POSITION_DATA_LENGTH := 2

  /** The packet handler `connect` builds for a servo type, if it knows
      the type. */
  function ProtocolFor(servoType: string): Option<Protocol> {
    if servoType == "sms_sts" then Some(SmsSts)
    else if servoType == "hls" then Some(Hls)
    else if servoType == "scscl" then Some(Scscl)
    else None
  }

  /** The reader names the STS family after its protocol: the controller's
      "sts" is unknown here, and each known name picks its own handler. */
  lemma ReaderServoTypes()
    ensures ProtocolFor("sts").None?
    ensures ProtocolFor("sms_sts") == Some(SmsSts) && ProtocolFor("hls") == Some(Hls)
            && ProtocolFor("scscl") == Some(Scscl)
    ensures forall a, b :: ProtocolFor(a).Some? && ProtocolFor(a) == ProtocolFor(b) ==> a == b
  {
  }

  /** The exchanges of the reader's `connect` on a closed connection: an
      unknown servo type raises ValueError before anything is sent;
      otherwise the port is opened as in the controller. */
  predicate ReaderOpens(servoType: string, port: string, baudrate: int, t: seq<Exchange>, r: Outcome) {
    if ProtocolFor(servoType).None? then
      t == [] && r == Fail(ValueError(UnknownServoType(servoType)))
    else
      Opens(port, baudrate, t, r)
  }

  class ServoReader {
    const port: string
    const baudrate: int
    /** Lower-cased, but not checked until `connect`. */
    const servoType: string
    /** The serial line this reader talks over. */
    const bus: Bus

    var portHandler: Option<string>
    var packetHandler: Option<Protocol>
    var connected: bool

    /** An open connection has both handlers, for a known servo type. */
    predicate Valid()
      reads this
    {
      connected ==> portHandler == Some(port) && ProtocolFor(servoType).Some? && packetHandler == ProtocolFor(servoType)
    }

    /** The object `__init__` builds once the port is known. */
    constructor (port: string, baudrate: int, servoType: string, bus: Bus)
      ensures Valid()
      ensures this.port == port && this.baudrate == baudrate && this.servoType == Lower(servoType) && this.bus == bus
      ensures portHandler == None && packetHandler == None && !connected
    {
      this.port := port;
      this.baudrate := baudrate;
      this.servoType := Lower(servoType);
      this.bus := bus;
      portHandler := None;
      packetHandler := None;
      connected := false;
    }

    /** `connect`: nothing to do when connected; otherwise the port handler
        is created first, so an unknown type raises ValueError after it
        exists. Only a fully successful opening sets `connected`. */
    method Connect() returns (r: Outcome)
      requires Valid()
      modifies this
      modifies bus
      ensures Valid()
      ensures Extends(old(bus.history), bus.history)
      ensures old(connected) ==>
                r == Pass && connected && bus.history == old(bus.history)
                && portHandler == old(portHandler) && packetHandler == old(packetHandler)
      ensures !old(connected) ==>
                portHandler == Some(port)
                && packetHandler == (if ProtocolFor(servoType).Some? then ProtocolFor(servoType) else old(packetHandler))
                && ReaderOpens(servoType, port, baudrate, Added(old(bus.history), bus.history), r)
                && (connected <==> r == Pass)
    {
      if connected {
        return Pass;
      }
      portHandler := Some(port);
      var protocol := ProtocolFor(servoType);
      if protocol.None? {
        return Fail(ValueError(UnknownServoType(servoType)));
      }
      packetHandler := protocol;
      r := Open(bus, port, baudrate);
      if r == Pass {
        connected := true;
      }
    }

    /** `disconnect`: close the port when connected, and nothing else: the
        reader sends no torque-disable. */
    method Disconnect()
      requires Valid()
      modifies this
      modifies bus
      ensures Valid() && !connected
      ensures portHandler == old(portHandler) && packetHandler == old(packetHandler)
      ensures Extends(old(bus.history), bus.history)
      ensures !old(connected) ==> bus.history == old(bus.history)
      ensures old(connected) ==> Requests(Added(old(bus.history), bus.history)) == [ClosePort]
    {
      if connected && portHandler.Some? {
        var _ := bus.Call(ClosePort);
        connected := false;
      }
    }

    /** `read_position`: one position read. */
    method ReadPosition(motorId: int) returns (r: Result<int>)
      requires Valid()
      modifies bus
      ensures Extends(old(bus.history), bus.history)
      ensures !connected ==> r == Err(ConnectionError(NotConnected)) && bus.history == old(bus.history)
      ensures connected ==>
                var t := Added(old(bus.history), bus.history);
                |t| == 1 && t[0].request == ReadPos(motorId) && r == ReadPosOutcome(motorId, t[0].reply)
    {
      if !connected {
        return Err(ConnectionError(NotConnected));
      }
      var rep := bus.Call(ReadPos(motorId));
      if rep.comm != COMM_SUCCESS {
        return Err(CommunicationError(ReadFailed(motorId)));
      }
      if rep.error != 0 {
        return Err(CommunicationError(MotorFault(motorId)));
      }
      r := Ok(rep.value);
    }

    /** `read_positions`: one group read of the listed motors (the list is
        required here). A motor the group refuses to queue is only warned
        about. */
    method ReadPositions(motorIds: seq<int>) returns (r: Result<map<int, int>>)
      requires Valid()
      modifies bus
      ensures Extends(old(bus.history), bus.history)
      ensures !connected ==> r == Err(ConnectionError(NotConnected)) && bus.history == old(bus.history)
      ensures connected ==>
                var t := Added(old(bus.history), bus.history);
                IsGroupRead(motorIds, PRESENT_POSITION_ADDR, POSITION_DATA_LENGTH, t)
                && r == GroupReadOutcome(motorIds, PRESENT_POSITION_ADDR, POSITION_DATA_LENGTH, t)
    {
      if !connected {
        return Err(ConnectionError(NotConnected));
      }
      var ok, positions := GroupRead(bus, motorIds, PRESENT_POSITION_ADDR, POSITION_DATA_LENGTH);
      if !ok {
        return Err(CommunicationError(GroupReadFailed));
      }
      r := Ok(positions);
    }

    /** `read_positions_continuous`: connect when needed, then read at
        `frequency` until interrupted. `elapsed[i]` is how long iteration
        `i` took; KeyboardInterrupt arrives after the last of them and is
        swallowed. Errors from `connect`, a zero frequency and a failed
        read propagate. `frames` are the readings handed to the callback
        or the display, `sleeps` the sleeps taken. */
    method ReadPositionsContinuous(motorIds: seq<int>, frequency: real, elapsed: seq<real>)
      returns (r: Outcome, frames: seq<map<int, int>>, sleeps: seq<Option<real>>,
               ghost connection: Outcome, ghost setup: nat, ghost rounds: seq<seq<Exchange>>)
      requires Valid()
      modifies this
      modifies bus
      ensures Valid() && (connected <==> connection == Pass)
      ensures Extends(old(bus.history), bus.history)
      ensures var t := Added(old(bus.history), bus.history);
                setup <= |t|
                && (old(connected) ==> setup == 0 && connection == Pass)
                && (!old(connected) ==> ReaderOpens(servoType, port, baudrate, t[..setup], connection))
                && (connection.Fail? ==> r == connection && |t| == setup && frames == [])
                && (connection == Pass && LoopTime(frequency).Err? ==>
                      r == Fail(ZeroDivisionError) && |t| == setup && frames == [])
                && (connection == Pass && LoopTime(frequency).Ok? ==>
                      PacedRun(motorIds, PRESENT_POSITION_ADDR, POSITION_DATA_LENGTH, LoopTime(frequency).value, elapsed, t[setup..], r, frames, sleeps, rounds))
    {
      frames, sleeps, rounds := [], [], [];
      connection, setup := Pass, 0;
      ghost var h0 := bus.history;
      if !connected {
        var outcome := Connect();
        connection, setup := outcome, |bus.history| - |h0|;
        if outcome.Fail? {
          return outcome, frames, sleeps, connection, setup, rounds;
        }
      }
      ghost var h1 := bus.history;
      var loopTime := LoopTime(frequency);
      if loopTime.Err? {
        return Fail(loopTime.error), frames, sleeps, connection, setup, rounds;
      }
      r, frames, sleeps, rounds := PacedReads(motorIds, loopTime.value, elapsed);
      AddedSplit(h0, h1, bus.history, setup);
    }

    /** The `while True` loop of `read_positions_continuous` on an open
        connection. */
    method PacedReads(motorIds: seq<int>, loopTime: real, elapsed: seq<real>)
      returns (r: Outcome, frames: seq<map<int, int>>, sleeps: seq<Option<real>>, ghost rounds: seq<seq<Exchange>>)
      requires Valid() && connected
      modifies bus
      ensures Extends(old(bus.history), bus.history)
      ensures PacedRun(motorIds, PRESENT_POSITION_ADDR, POSITION_DATA_LENGTH, loopTime, elapsed, Added(old(bus.history), bus.history), r, frames, sleeps, rounds)
    {
      frames, sleeps, rounds := [], [], [];
      for i := 0 to |elapsed|
        invariant bus.history == old(bus.history) + Concat(rounds)
        invariant |rounds| == i && Progress(motorIds, PRESENT_POSITION_ADDR, POSITION_DATA_LENGTH, loopTime, elapsed, rounds, frames, sleeps)
      {
        var positions, read := PacedRound(motorIds, loopTime, elapsed, old(bus.history), rounds, frames, sleeps);
        if positions.Err? {
          rounds := rounds + [read];
          AddedSuffix(old(bus.history), bus.history, Concat(rounds));
          return Fail(CommunicationError(GroupReadFailed)), frames, sleeps, rounds;
        }
        frames := frames + [positions.value];
        sleeps := sleeps + [SleepDuration(loopTime, elapsed[i])];
        rounds := rounds + [read];
      }
      r := Pass;
      RunCompletes(motorIds, PRESENT_POSITION_ADDR, POSITION_DATA_LENGTH, loopTime, elapsed, rounds, frames, sleeps);
      AddedSuffix(old(bus.history), bus.history, Concat(rounds));
    }

    /** One iteration of the reading loop: the group read, and what it
        makes of the run so far. */
    method PacedRound(motorIds: seq<int>, loopTime: real, elapsed: seq<real>, ghost start: seq<Exchange>,
                      ghost rounds: seq<seq<Exchange>>, frames: seq<map<int, int>>, sleeps: seq<Option<real>>)
      returns (positions: Result<map<int, int>>, ghost read: seq<Exchange>)
      requires Valid() && connected && bus.history == start + Concat(rounds)
      requires Progress(motorIds, PRESENT_POSITION_ADDR, POSITION_DATA_LENGTH, loopTime, elapsed, rounds, frames, sleeps) && |frames| < |elapsed|
      modifies bus
      ensures bus.history == start + Concat(rounds + [read])
      ensures positions.Ok? ==>
                Progress(motorIds, PRESENT_POSITION_ADDR, POSITION_DATA_LENGTH, loopTime, elapsed, rounds + [read], frames + [positions.value],
                         sleeps + [SleepDuration(loopTime, elapsed[|frames|])])
      ensures positions.Err? ==>
                PacedRun(motorIds, PRESENT_POSITION_ADDR, POSITION_DATA_LENGTH, loopTime, elapsed, Concat(rounds + [read]), Fail(CommunicationError(GroupReadFailed)),
                         frames, sleeps, rounds + [read])
    {
      ghost var h := bus.history;
      positions := ReadPositions(motorIds);
      read := Added(h, bus.history);
      ExtendParts(start, rounds, h, bus.history);
      if positions.Err? {
        RoundFails(motorIds, PRESENT_POSITION_ADDR, POSITION_DATA_LENGTH, loopTime, elapsed, rounds, frames, sleeps, read);
      } else {
        RoundDelivers(motorIds, PRESENT_POSITION_ADDR, POSITION_DATA_LENGTH, loopTime, elapsed, rounds, frames, sleeps, read);
      }
    }
  }
  /** `ServoReader(...)`: resolve the port (auto-detection may raise
      PortNotFoundError), then build the object. The servo type is only
      lower-cased. */
  method NewServoReader(port: Option<string>, baudrate: int, servoType: string,
                        system: string, devices: seq<string>, bus: Bus) returns (r: Result<ServoReader>)
    ensures var resolved := PortDiscovery.ResolvePort(port, system, devices);
              (resolved.Err? ==> r == Err(resolved.error))
              && (resolved.Ok? ==>
                    r.Ok? && fresh(r.value) && r.value.Valid() && !r.value.connected
                    && r.value.portHandler.None? && r.value.packetHandler.None?
                    && r.value.port == resolved.value && r.value.baudrate == baudrate
                    && r.value.servoType == Lower(servoType) && r.value.bus == bus)
  {
    var resolved := PortDiscovery.ResolvePort(port, system, devices);
    if resolved.Err? {
      return Err(resolved.error);
    }
    var reader := new ServoReader(resolved.value, baudrate, servoType, bus);
    r := Ok(reader);
  }
}
