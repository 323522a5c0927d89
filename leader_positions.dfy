/** The stand-alone leader-arm reading script: parse the motor IDs, pick a
    port, open it at 1 Mbaud, then read the present positions with a group
    sync read at a fixed rate until Ctrl+C. Unlike the SDK's readers, a
    failed group read does not raise: it yields an empty reading and the
    loop goes on. */
module LeaderPositions {
  import opened Errors
  import opened Bus
  import opened SyncRead
  import opened Pacing
  import opened Endings
  import opened Text
  import opened MotorIds
  import opened PortDiscovery
  import opened ReadLoop

  /** PRESENT_POSITION and the width of the position word. */
  const PRESENT_POSITION := 56
  const POSITION_LENGTH := 2
  const BAUDRATE := 1000000
  const DEFAULT_MOTOR_IDS := "1,2,3,4,5,6"
  const DEFAULT_HZ := 30

  /** `args.port if args.port else find_port()`: a missing or empty port
      falls back to the script's own port search, which raises
      RuntimeError. */
  function ScriptPort(port: Option<string>, system: string, devices: seq<string>): (r: Result<string>)
    ensures port.Some? && port.value != "" ==> r == Ok(port.value)
    ensures port.None? || port.value == "" ==> r == FindPort(system, devices)
  {
    if port.Some? && port.value != "" then Ok(port.value) else FindPort(system, devices)
  }

  /** The script picks the same port as the SDK's constructors; only the
      exception differs when none is found. */
  lemma ScriptPortAgrees(port: Option<string>, system: string, devices: seq<string>)
    ensures ScriptPort(port, system, devices).Ok? <==> ResolvePort(port, system, devices).Ok?
    ensures ScriptPort(port, system, devices).Ok? ==> ScriptPort(port, system, devices) == ResolvePort(port, system, devices)
    ensures ScriptPort(port, system, devices).Err? ==>
              ScriptPort(port, system, devices).error == RuntimeError
              && ResolvePort(port, system, devices).error == PortNotFoundError
  {
    FindPortAgrees(system, devices);
  }

  /** What `read_positions` returns for one group read: the positions of
      the SDK's reader when the transaction went through, the empty
      dictionary when it failed. */
  function Lenient(ids: seq<int>, t: seq<Exchange>): (m: map<int, int>)
    requires IsGroupRead(ids, PRESENT_POSITION, POSITION_LENGTH, t)
    ensures GroupReadOutcome(ids, PRESENT_POSITION, POSITION_LENGTH, t).Ok? ==>
              GroupReadOutcome(ids, PRESENT_POSITION, POSITION_LENGTH, t) == Ok(m)
    ensures GroupReadOutcome(ids, PRESENT_POSITION, POSITION_LENGTH, t).Err? ==> m == map[]
  {
    var r := GroupReadOutcome(ids, PRESENT_POSITION, POSITION_LENGTH, t);
    if r.Ok? then r.value else map[]
  }

  /** The keys of a reading are exactly the requested motors whose data
      was available in a transaction that went through. */
  lemma LenientKeys(ids: seq<int>, t: seq<Exchange>, k: int)
    requires IsGroupRead(ids, PRESENT_POSITION, POSITION_LENGTH, t)
    ensures k in Lenient(ids, t) <==>
              TransactionOk(ids, t) && exists i :: 0 <= i < |ids| && ids[i] == k && t[|ids| + 1 + i].reply.ok
    ensures k in Lenient(ids, t) ==> k in ids
  {
    if TransactionOk(ids, t) {
      PositionsRequested(ids, PRESENT_POSITION, POSITION_LENGTH, t);
    }
  }

  /** `read_positions`: one group read of the position word for every
      motor; never raises. */
  method ReadPositions(bus: Bus, ids: seq<int>) returns (positions: map<int, int>)
    modifies bus
    ensures Extends(old(bus.history), bus.history)
    ensures IsGroupRead(ids, PRESENT_POSITION, POSITION_LENGTH, Added(old(bus.history), bus.history))
    ensures positions == Lenient(ids, Added(old(bus.history), bus.history))
  {
    var ok;
    ok, positions := GroupRead(bus, ids, PRESENT_POSITION, POSITION_LENGTH);
  }

  /** The state of the reading loop between iterations: one group read
      per iteration, each reading kept whatever became of the transaction,
      each followed by the sleep that keeps the period. */
  predicate Reading(ids: seq<int>, loopTime: real, elapsed: seq<real>, rounds: seq<seq<Exchange>>,
                    frames: seq<map<int, int>>, sleeps: seq<Option<real>>) {
    GroupReadsOf(ids, PRESENT_POSITION, POSITION_LENGTH, rounds)
    && |rounds| == |frames| == |sleeps| <= |elapsed|
    && (forall i :: 0 <= i < |rounds| ==> frames[i] == Lenient(ids, rounds[i]))
    && PacedBy(loopTime, elapsed, sleeps)
  }

  /** One more iteration keeps the loop state. */
  lemma ReadingStep(ids: seq<int>, loopTime: real, elapsed: seq<real>, rounds: seq<seq<Exchange>>,
                    frames: seq<map<int, int>>, sleeps: seq<Option<real>>, read: seq<Exchange>)
    requires Reading(ids, loopTime, elapsed, rounds, frames, sleeps) && |frames| < |elapsed|
    requires IsGroupRead(ids, PRESENT_POSITION, POSITION_LENGTH, read)
    ensures Reading(ids, loopTime, elapsed, rounds + [read], frames + [Lenient(ids, read)],
                    sleeps + [SleepDuration(loopTime, elapsed[|frames|])])
  {
    var more := rounds + [read];
    assert forall i :: 0 <= i < |rounds| ==> more[i] == rounds[i];
    assert more[|rounds|] == read;
  }

  /** Every reading of the loop holds requested motors only and is either
      empty or what the SDK's strict reader would have returned; every
      iteration lasts at least the period. */
  lemma ReadingFrames(ids: seq<int>, loopTime: real, elapsed: seq<real>, rounds: seq<seq<Exchange>>,
                      frames: seq<map<int, int>>, sleeps: seq<Option<real>>)
    requires Reading(ids, loopTime, elapsed, rounds, frames, sleeps)
    ensures forall i, k :: 0 <= i < |frames| && k in frames[i] ==> k in ids
    ensures forall i :: 0 <= i < |frames| ==>
              frames[i] == map[] || GroupReadOutcome(ids, PRESENT_POSITION, POSITION_LENGTH, rounds[i]) == Ok(frames[i])
    ensures forall i :: 0 <= i < |frames| ==> elapsed[i] + sleeps[i].GetOr(0.0) >= loopTime
  {
    forall i, k | 0 <= i < |frames| && k in frames[i] ensures k in ids {
      LenientKeys(ids, rounds[i], k);
    }
    forall i | 0 <= i < |frames| ensures elapsed[i] + sleeps[i].GetOr(0.0) >= loopTime {
      IterationLength(loopTime, elapsed[i]);
    }
  }

  /** One iteration of the loop: the read, and what it adds to the run. */
  method ReadingRound(bus: Bus, ids: seq<int>, loopTime: real, elapsed: seq<real>, ghost start: seq<Exchange>,
                      ghost rounds: seq<seq<Exchange>>, frames: seq<map<int, int>>, sleeps: seq<Option<real>>)
    returns (positions: map<int, int>, ghost read: seq<Exchange>)
    requires bus.history == start + Concat(rounds)
    requires Reading(ids, loopTime, elapsed, rounds, frames, sleeps) && |frames| < |elapsed|
    modifies bus
    ensures bus.history == start + Concat(rounds + [read])
    ensures Reading(ids, loopTime, elapsed, rounds + [read], frames + [positions],
                    sleeps + [SleepDuration(loopTime, elapsed[|frames|])])
  {
    ghost var h := bus.history;
    positions := ReadPositions(bus, ids);
    read := Added(h, bus.history);
    ExtendParts(start, rounds, h, bus.history);
    ReadingStep(ids, loopTime, elapsed, rounds, frames, sleeps, read);
  }

  /** The `while True` loop up to Ctrl+C, which comes after the
      iterations that have an `elapsed` entry. */
  method ReadUntilInterrupted(bus: Bus, ids: seq<int>, loopTime: real, elapsed: seq<real>)
    returns (frames: seq<map<int, int>>, sleeps: seq<Option<real>>, ghost rounds: seq<seq<Exchange>>)
    modifies bus
    ensures Extends(old(bus.history), bus.history) && Added(old(bus.history), bus.history) == Concat(rounds)
    ensures Reading(ids, loopTime, elapsed, rounds, frames, sleeps) && |rounds| == |elapsed|
  {
    frames, sleeps, rounds := [], [], [];
    for i := 0 to |elapsed|
      invariant bus.history == old(bus.history) + Concat(rounds)
      invariant |rounds| == i && Reading(ids, loopTime, elapsed, rounds, frames, sleeps)
    {
      var positions, read := ReadingRound(bus, ids, loopTime, elapsed, old(bus.history), rounds, frames, sleeps);
      frames := frames + [positions];
      sleeps := sleeps + [SleepDuration(loopTime, elapsed[i])];
      rounds := rounds + [read];
    }
    AddedSuffix(old(bus.history), bus.history, Concat(rounds));
  }

  /** The exchanges of the `try`/`finally`: with a zero rate only the
      closing; otherwise the reading rounds, one per iteration, then the
      closing. */
  predicate ReadThenClose(ids: seq<int>, hz: int, elapsed: seq<real>, t: seq<Exchange>, ending: Ending,
                          frames: seq<map<int, int>>, sleeps: seq<Option<real>>, rounds: seq<seq<Exchange>>) {
    |t| >= 1 && t[|t| - 1].request == ClosePort
    && (hz == 0 ==> ending == Raised(ZeroDivisionError) && |t| == 1)
    && (hz != 0 ==> ending == Returned && t[..|t| - 1] == Concat(rounds)
                    && Reading(ids, 1.0 / hz as real, elapsed, rounds, frames, sleeps) && |rounds| == |elapsed|)
  }

  /** The `try`/`finally` around the loop: the loop time is computed
      inside it (a zero rate raises ZeroDivisionError), Ctrl+C is caught,
      and the port is closed on every way out. */
  method ReadAndClose(bus: Bus, ids: seq<int>, hz: int, elapsed: seq<real>)
    returns (ending: Ending, frames: seq<map<int, int>>, sleeps: seq<Option<real>>, ghost rounds: seq<seq<Exchange>>)
    modifies bus
    ensures Extends(old(bus.history), bus.history)
    ensures ReadThenClose(ids, hz, elapsed, Added(old(bus.history), bus.history), ending, frames, sleeps, rounds)
  {
    frames, sleeps, rounds := [], [], [];
    var loopTime := LoopTime(hz as real);
    ghost var h := bus.history;
    if loopTime.Err? {
      ending := Raised(loopTime.error);
    } else {
      frames, sleeps, rounds := ReadUntilInterrupted(bus, ids, loopTime.value, elapsed);
      ending := Returned;
    }
    ghost var m := bus.history;
    var _ := bus.Call(ClosePort);
    AddedTwice(old(bus.history), m, bus.history);
  }

  /** What happens on the line once the IDs and the port are known: the
      port is opened, then set to 1 Mbaud; a refusal of either ends `main`
      without closing anything. Otherwise the reading loop runs and the
      port is closed last. */
  predicate Session(ids: seq<int>, portName: string, hz: int, elapsed: seq<real>, t: seq<Exchange>, ending: Ending,
                    frames: seq<map<int, int>>, sleeps: seq<Option<real>>, rounds: seq<seq<Exchange>>) {
    |t| >= 1 && t[0].request == OpenPort(portName)
    && (!t[0].reply.ok ==> ending == Returned && |t| == 1)
    && (t[0].reply.ok ==>
          |t| >= 2 && t[1].request == SetBaudRate(BAUDRATE)
          && (!t[1].reply.ok ==> ending == Returned && |t| == 2)
          && (t[1].reply.ok ==> ReadThenClose(ids, hz, elapsed, t[2..], ending, frames, sleeps, rounds)))
  }

  /** Opening the port, the loop and the closing. */
  method OpenAndRead(bus: Bus, ids: seq<int>, portName: string, hz: int, elapsed: seq<real>)
    returns (ending: Ending, frames: seq<map<int, int>>, sleeps: seq<Option<real>>, ghost rounds: seq<seq<Exchange>>)
    modifies bus
    ensures Extends(old(bus.history), bus.history)
    ensures Session(ids, portName, hz, elapsed, Added(old(bus.history), bus.history), ending, frames, sleeps, rounds)
  {
    frames, sleeps, rounds := [], [], [];
    var portOpen := bus.Call(OpenPort(portName));
    if !portOpen.ok {
      return Returned, frames, sleeps, rounds;
    }
    var baud := bus.Call(SetBaudRate(BAUDRATE));
    if !baud.ok {
      return Returned, frames, sleeps, rounds;
    }
    ghost var h := bus.history;
    AddedSuffix(old(bus.history), h, [Exchange(OpenPort(portName), portOpen), Exchange(SetBaudRate(BAUDRATE), baud)]);
    ending, frames, sleeps, rounds := ReadAndClose(bus, ids, hz, elapsed);
    AddedTwice(old(bus.history), h, bus.history);
    assert Added(old(bus.history), bus.history)[2..] == Added(h, bus.history);
  }

  /** `main`. The ID list is parsed first (a field `int` rejects raises
      ValueError), then the port is chosen (none found raises
      RuntimeError); only then does anything reach the line. */
  method LeaderMain(motorIdsArg: string, port: Option<string>, hz: int, system: string, devices: seq<string>,
                    elapsed: seq<real>, bus: Bus)
    returns (ending: Ending, frames: seq<map<int, int>>, sleeps: seq<Option<real>>, ghost rounds: seq<seq<Exchange>>)
    modifies bus
    ensures Extends(old(bus.history), bus.history)
    ensures var parsed := ParseFields(Split(motorIdsArg, ','));
            parsed.Err? ==> ending == Raised(parsed.error) && bus.history == old(bus.history)
    ensures var parsed, chosen := ParseFields(Split(motorIdsArg, ',')), ScriptPort(port, system, devices);
            parsed.Ok? && chosen.Err? ==> ending == Raised(RuntimeError) && bus.history == old(bus.history)
    ensures var parsed, chosen := ParseFields(Split(motorIdsArg, ',')), ScriptPort(port, system, devices);
            parsed.Ok? && chosen.Ok? ==>
              Session(parsed.value, chosen.value, hz, elapsed, Added(old(bus.history), bus.history), ending, frames, sleeps, rounds)
  {
    frames, sleeps, rounds := [], [], [];
    var parsed := ParseFields(Split(motorIdsArg, ','));
    if parsed.Err? {
      return Raised(parsed.error), frames, sleeps, rounds;
    }
    var chosen := ScriptPort(port, system, devices);
    if chosen.Err? {
      return Raised(chosen.error), frames, sleeps, rounds;
    }
    ending, frames, sleeps, rounds := OpenAndRead(bus, parsed.value, chosen.value, hz, elapsed);
  }
}
