/** The teleoperation example (`examples/teleoperation.py`): two arms on
    two serial adapters, the one whose first servo reports a low supply
    voltage leads, and the other copies its positions at a fixed rate until
    Ctrl+C. The role choice, the `with` block around the two controllers
    and the copying loop are shared with the joint-limit variant. */
module Teleop {
  import opened Errors
  import opened Bus
  import opened SyncRead
  import opened Pacing
  import opened ReadLoop
  import opened Endings
  import opened Connection
  import PortDiscovery
  import Controller

  /** A leader arm runs on about 5 V, a follower on about 12 V. */
  const VOLTAGE_THRESHOLD: real := 9.0
  const SERVO_IDS: seq<int> := [1, 2, 3, 4, 5, 6]
  const SERVO_TYPE := "sts"
  const FREQUENCY: real := 20.0
  /** The controllers' default baudrate. */
  const BAUDRATE := 1000000

  /** Leader and follower, in that order: the first arm leads exactly when
      its voltage is below the threshold. */
  function Roles<T>(voltage1: real, first: T, second: T): (r: (T, T))
    ensures multiset{r.0, r.1} == multiset{first, second}
    ensures voltage1 < VOLTAGE_THRESHOLD ==> r.0 == first
    ensures !(voltage1 < VOLTAGE_THRESHOLD) ==> r.0 == second
  {
    if voltage1 < VOLTAGE_THRESHOLD then (first, second) else (second, first)
  }

  /** With two distinct arms, exactly one leads and the other follows, and
      the first leads exactly when its voltage is low. */
  lemma RolesSplit<T>(voltage1: real, first: T, second: T)
    requires first != second
    ensures Roles(voltage1, first, second).0 != Roles(voltage1, first, second).1
    ensures Roles(voltage1, first, second).0 == first <==> voltage1 < VOLTAGE_THRESHOLD
    ensures Roles(voltage1, first, second).1 == first <==> !(voltage1 < VOLTAGE_THRESHOLD)
  {
    var r := Roles(voltage1, first, second);
    assert r.0 in multiset{first, second} && r.1 in multiset{first, second};
  }

  /** The follower's exchanges of a copying loop: one position command per
      delivered frame, carrying exactly that frame and no speed or
      acceleration. */
  predicate Mirrored(t: seq<Exchange>, frames: seq<map<int, int>>) {
    |t| == |frames| && forall i :: 0 <= i < |t| ==> t[i].request == WritePositionOp(frames[i], None, None)
  }

  /** Every adapter `find_servo_ports` lists has a name, so handing it to
      a controller never triggers auto-detection. */
  lemma ListedPortsNamed(system: string, devices: seq<string>, i: int)
    requires 0 <= i < |PortDiscovery.FindServoPorts(system, devices)|
    ensures PortDiscovery.FindServoPorts(system, devices)[i] != ""
  {
    var ports := PortDiscovery.FindServoPorts(system, devices);
    assert ports[i] in multiset(ports);
    assert ports[i] in PortDiscovery.FilterPorts(system, devices);
    assert !PortDiscovery.IsServoPort(system, "");
  }

  /** The settings a controller opens its line with. */
  datatype Arm = Arm(ids: seq<int>, port: string, baudrate: int)

  /** What one line carried during `with ctrl1, ctrl2:`: the `connect` of
      `__enter__` (`entering`), the block's body (`body`), and the
      `disconnect` of `__exit__` (`leaving`). */
  datatype Traffic = Traffic(entering: seq<Exchange>, body: seq<Exchange>, leaving: seq<Exchange>) {
    function All(): seq<Exchange> {
      entering + body + leaving
    }
  }

  /** `with ctrl1, ctrl2:` over both lines, `first` and `second` being
      what the two `connect` calls gave. A failing first `connect` leaves
      the second arm untouched; a failing second one releases the first
      arm; otherwise the body runs and both arms are released. `entry` is
      what entering the block gave. */
  predicate WithTraffic(a1: Arm, a2: Arm, x1: Traffic, x2: Traffic, first: Outcome, second: Outcome, entry: Outcome) {
    Opens(a1.port, a1.baudrate, x1.entering, first)
    && if first.Fail? then
         entry == first && x1.body == [] && x1.leaving == [] && x2 == Traffic([], [], [])
       else
         Opens(a2.port, a2.baudrate, x2.entering, second)
         && Requests(x1.leaving) == DisableThenClose(a1.ids)
         && if second.Fail? then
              entry == second && x1.body == [] && x2.body == [] && x2.leaving == []
            else
              entry == Pass && Requests(x2.leaving) == DisableThenClose(a2.ids)
  }

  /** The port of a line is left closed: its first request opens the port,
      and its last one closes it exactly when the port opened; the second
      line carries nothing when the first arm did not connect. */
  lemma WithReleasesBoth(a1: Arm, a2: Arm, x1: Traffic, x2: Traffic, first: Outcome, second: Outcome, entry: Outcome)
    requires WithTraffic(a1, a2, x1, x2, first, second, entry)
    ensures var t1 := x1.All();
            |t1| > 0 && t1[0].request == OpenPort(a1.port) && (t1[0].reply.ok <==> t1[|t1| - 1].request == ClosePort)
    ensures x2.All() == [] <==> first.Fail?
    ensures var t2 := x2.All();
            t2 != [] ==> t2[0].request == OpenPort(a2.port) && (t2[0].reply.ok <==> t2[|t2| - 1].request == ClosePort)
  {
    var t1, t2 := x1.All(), x2.All();
    assert t1[0] == x1.entering[0];
    if first.Fail? {
      assert t1 == x1.entering;
      assert t2 == [];
    } else {
      LastRequest(x1.leaving, a1.ids);
      assert t1[|t1| - 1] == x1.leaving[|x1.leaving| - 1];
      assert t2[0] == x2.entering[0];
      if second.Fail? {
        assert t2 == x2.entering;
      } else {
        LastRequest(x2.leaving, a2.ids);
        assert t2[|t2| - 1] == x2.leaving[|x2.leaving| - 1];
      }
    }
  }

  /** A line that carried the entering traffic, then the body, then the
      leaving traffic, carried the block's traffic. */
  lemma CarriedTraffic(h: seq<Exchange>, m: seq<Exchange>, n: seq<Exchange>, after: seq<Exchange>, x: Traffic)
    requires m == h + x.entering && n == m + x.body && after == n + x.leaving
    ensures after == h + x.All()
  {
  }

  /** A line that carried only the entering and leaving traffic. */
  lemma RefusedTraffic(h: seq<Exchange>, after: seq<Exchange>, x: Traffic)
    requires after == h + x.entering + x.leaving && x.body == []
    ensures after == h + x.All()
  {
  }

  /** Both arms connected: the block's traffic, whatever its body. */
  lemma Entered(a1: Arm, a2: Arm, x1: Traffic, x2: Traffic)
    requires Opens(a1.port, a1.baudrate, x1.entering, Pass) && Opens(a2.port, a2.baudrate, x2.entering, Pass)
    requires Requests(x1.leaving) == DisableThenClose(a1.ids) && Requests(x2.leaving) == DisableThenClose(a2.ids)
    ensures WithTraffic(a1, a2, x1, x2, Pass, Pass, Pass)
  {
  }

  /** An arm failed to connect: the block's traffic, with an empty body. */
  lemma Refused(a1: Arm, a2: Arm, in1: seq<Exchange>, back1: seq<Exchange>, in2: seq<Exchange>,
                first: Outcome, second: Outcome, entry: Outcome)
    requires entry.Fail? && Opens(a1.port, a1.baudrate, in1, first)
    requires first.Fail? ==> entry == first && back1 == [] && in2 == []
    requires first == Pass ==>
               Opens(a2.port, a2.baudrate, in2, second) && second.Fail? && entry == second
               && Requests(back1) == DisableThenClose(a1.ids)
    ensures WithTraffic(a1, a2, Traffic(in1, [], back1), Traffic(in2, [], []), first, second, entry)
  {
  }

  /** A `disconnect` of a connected controller ends with closePort. */
  lemma LastRequest(t: seq<Exchange>, ids: seq<int>)
    requires Requests(t) == DisableThenClose(ids)
    ensures |t| > 0 && t[|t| - 1].request == ClosePort
  {
    assert Requests(t)[|t| - 1] == t[|t| - 1].request;
  }

  /** `with ctrl1, ctrl2:` on entry: connect the first, then the second. A
      failing `connect` raises before its own `__exit__` is registered, so
      when the second fails only the first is disconnected again
      (`back1`). */
  method Enter(c1: Controller.ServoController, c2: Controller.ServoController)
    returns (r: Outcome, ghost first: Outcome, ghost second: Outcome,
             ghost in1: seq<Exchange>, ghost back1: seq<Exchange>, ghost in2: seq<Exchange>)
    requires c1.Valid() && c2.Valid() && !c1.connected && !c2.connected && c1 != c2 && c1.bus != c2.bus
    modifies c1, c2, c1.bus, c2.bus
    ensures c1.Valid() && c2.Valid()
    ensures c1.bus.history == old(c1.bus.history) + in1 + back1 && c2.bus.history == old(c2.bus.history) + in2
    ensures Opens(c1.port, c1.baudrate, in1, first)
    ensures first.Fail? ==> r == first && back1 == [] && in2 == [] && !c1.connected && !c2.connected
    ensures first == Pass ==> Opens(c2.port, c2.baudrate, in2, second)
    ensures first == Pass && second.Fail? ==>
              r == second && !c1.connected && !c2.connected && Requests(back1) == DisableThenClose(c1.servoIds)
    ensures first == Pass && second == Pass ==> r == Pass && c1.connected && c2.connected && back1 == []
  {
    second, back1, in2 := Pass, [], [];
    ghost var h1 := c1.bus.history;
    var opened1 := c1.Connect();
    first := opened1;
    in1 := Added(h1, c1.bus.history);
    if opened1.Fail? {
      return opened1, first, second, in1, back1, in2;
    }
    ghost var h2 := c2.bus.history;
    var opened2 := c2.Connect();
    second := opened2;
    in2 := Added(h2, c2.bus.history);
    if opened2.Fail? {
      ghost var h3 := c1.bus.history;
      c1.Disconnect();
      back1 := Added(h3, c1.bus.history);
      DisconnectRequests(c1.servoIds, back1);
      return opened2, first, second, in1, back1, in2;
    }
    r := Pass;
  }

  /** What `disconnect` sends on a connected controller: a torque-disable
      write per configured servo, then the port is closed. */
  function DisableThenClose(ids: seq<int>): (rs: seq<Request>)
    ensures |rs| == |ids| + 1 && rs[|ids|] == ClosePort
    ensures forall k :: 0 <= k < |ids| ==> rs[k] == Write1Byte(ids[k], Controller.TORQUE_ENABLE_ADDR, 0)
  {
    seq(|ids|, k requires 0 <= k < |ids| => Write1Byte(ids[k], Controller.TORQUE_ENABLE_ADDR, 0)) + [ClosePort]
  }

  /** A connected controller's `disconnect` trace sends exactly
      `DisableThenClose`. */
  lemma DisconnectRequests(ids: seq<int>, t: seq<Exchange>)
    requires |t| == |ids| + 1 && Controller.DisablesAll(ids, t[..|ids|]) && t[|ids|].request == ClosePort
    ensures Requests(t) == DisableThenClose(ids)
  {
    var rs := Requests(t);
    forall k | 0 <= k < |ids| ensures rs[k] == DisableThenClose(ids)[k] {
      assert t[..|ids|][k] == t[k];
    }
  }

  /** `with ctrl1, ctrl2:` on exit: the second arm is released first. */
  method Leave(c1: Controller.ServoController, c2: Controller.ServoController)
    returns (ghost back1: seq<Exchange>, ghost back2: seq<Exchange>)
    requires c1.Valid() && c2.Valid() && c1.connected && c2.connected && c1 != c2 && c1.bus != c2.bus
    modifies c1, c2, c1.bus, c2.bus
    ensures c1.Valid() && c2.Valid() && !c1.connected && !c2.connected
    ensures c1.bus.history == old(c1.bus.history) + back1 && c2.bus.history == old(c2.bus.history) + back2
    ensures Requests(back1) == DisableThenClose(c1.servoIds) && Requests(back2) == DisableThenClose(c2.servoIds)
  {
    ghost var h1, h2 := c1.bus.history, c2.bus.history;
    c2.Disconnect();
    c1.Disconnect();
    back1, back2 := Added(h1, c1.bus.history), Added(h2, c2.bus.history);
    DisconnectRequests(c1.servoIds, back1);
    DisconnectRequests(c2.servoIds, back2);
  }

  /** The copying loop: read the leader, write the reading to the follower
      as it is, sleep for what is left of the period. A failed read raises
      out of the loop; KeyboardInterrupt, after the iterations listed in
      `elapsed`, is caught. */
  method Mirror(leader: Controller.ServoController, follower: Controller.ServoController,
                loopTime: real, elapsed: seq<real>)
    returns (r: Outcome, frames: seq<map<int, int>>, sleeps: seq<Option<real>>, ghost rounds: seq<seq<Exchange>>)
    requires leader.Valid() && leader.connected && follower.Valid() && leader.bus != follower.bus
    modifies leader.bus, follower.bus
    ensures Extends(old(leader.bus.history), leader.bus.history)
    ensures Extends(old(follower.bus.history), follower.bus.history)
    ensures PacedRun(leader.servoIds, Controller.PRESENT_POSITION_ADDR, Controller.POSITION_DATA_LENGTH, loopTime, elapsed,
                     Added(old(leader.bus.history), leader.bus.history), r, frames, sleeps, rounds)
    ensures Mirrored(Added(old(follower.bus.history), follower.bus.history), frames)
  {
    frames, sleeps, rounds := [], [], [];
    ghost var copies: seq<Exchange> := [];
    for i := 0 to |elapsed|
      invariant leader.bus.history == old(leader.bus.history) + Concat(rounds)
      invariant follower.bus.history == old(follower.bus.history) + copies && Mirrored(copies, frames)
      invariant |rounds| == i
      invariant Progress(leader.servoIds, Controller.PRESENT_POSITION_ADDR, Controller.POSITION_DATA_LENGTH,
                         loopTime, elapsed, rounds, frames, sleeps)
    {
      var positions, read := MirrorRead(leader, loopTime, elapsed, old(leader.bus.history), rounds, frames, sleeps);
      if positions.Err? {
        rounds := rounds + [read];
        AddedSuffix(old(leader.bus.history), leader.bus.history, Concat(rounds));
        AddedSuffix(old(follower.bus.history), follower.bus.history, copies);
        return Fail(CommunicationError(GroupReadFailed)), frames, sleeps, rounds;
      }
      copies := MirrorWrite(follower, old(follower.bus.history), copies, frames, positions.value);
      frames := frames + [positions.value];
      sleeps := sleeps + [SleepDuration(loopTime, elapsed[i])];
      rounds := rounds + [read];
    }
    r := Pass;
    RunCompletes(leader.servoIds, Controller.PRESENT_POSITION_ADDR, Controller.POSITION_DATA_LENGTH,
                 loopTime, elapsed, rounds, frames, sleeps);
    AddedSuffix(old(leader.bus.history), leader.bus.history, Concat(rounds));
    AddedSuffix(old(follower.bus.history), follower.bus.history, copies);
  }

  /** The leader's half of one iteration: the group read, and what it
      makes of the run so far. */
  method MirrorRead(leader: Controller.ServoController, loopTime: real, elapsed: seq<real>, ghost start: seq<Exchange>,
                    ghost rounds: seq<seq<Exchange>>, frames: seq<map<int, int>>, sleeps: seq<Option<real>>)
    returns (positions: Result<map<int, int>>, ghost read: seq<Exchange>)
    requires leader.Valid() && leader.connected && leader.bus.history == start + Concat(rounds)
    requires Progress(leader.servoIds, Controller.PRESENT_POSITION_ADDR, Controller.POSITION_DATA_LENGTH,
                      loopTime, elapsed, rounds, frames, sleeps)
    requires |frames| < |elapsed|
    modifies leader.bus
    ensures leader.bus.history == start + Concat(rounds + [read])
    ensures positions.Ok? ==>
              Progress(leader.servoIds, Controller.PRESENT_POSITION_ADDR, Controller.POSITION_DATA_LENGTH,
                       loopTime, elapsed, rounds + [read], frames + [positions.value],
                       sleeps + [SleepDuration(loopTime, elapsed[|frames|])])
    ensures positions.Err? ==>
              PacedRun(leader.servoIds, Controller.PRESENT_POSITION_ADDR, Controller.POSITION_DATA_LENGTH,
                       loopTime, elapsed, Concat(rounds + [read]), Fail(CommunicationError(GroupReadFailed)),
                       frames, sleeps, rounds + [read])
  {
    ghost var h := leader.bus.history;
    positions := leader.ReadPositions(None);
    read := Added(h, leader.bus.history);
    ExtendParts(start, rounds, h, leader.bus.history);
    if positions.Err? {
      RoundFails(leader.servoIds, Controller.PRESENT_POSITION_ADDR, Controller.POSITION_DATA_LENGTH,
                 loopTime, elapsed, rounds, frames, sleeps, read);
    } else {
      RoundDelivers(leader.servoIds, Controller.PRESENT_POSITION_ADDR, Controller.POSITION_DATA_LENGTH,
                    loopTime, elapsed, rounds, frames, sleeps, read);
    }
  }

  /** The follower's half of one iteration: the reading, written as it is. */
  method MirrorWrite(follower: Controller.ServoController, ghost start: seq<Exchange>, ghost copies: seq<Exchange>,
                     frames: seq<map<int, int>>, positions: map<int, int>)
    returns (ghost written: seq<Exchange>)
    requires follower.Valid() && follower.bus.history == start + copies && Mirrored(copies, frames)
    modifies follower.bus
    ensures follower.bus.history == start + written && Mirrored(written, frames + [positions])
  {
    ghost var h := follower.bus.history;
    follower.WritePosition(positions, None, None);
    written := copies + Added(h, follower.bus.history);
  }

  /** A copying loop seen from the follower: every position command it
      gets carries, with no speed or acceleration, the reading the leader's
      group read of the same iteration delivered, so only leader servos
      are ever commanded; the follower gets one command per iteration
      before Ctrl+C, and a failed leader read is never copied. */
  lemma MirrorCopies(ids: seq<int>, loopTime: real, elapsed: seq<real>, lead: seq<Exchange>, copies: seq<Exchange>,
                     run: Outcome, frames: seq<map<int, int>>, sleeps: seq<Option<real>>, rounds: seq<seq<Exchange>>)
    requires PacedRun(ids, Controller.PRESENT_POSITION_ADDR, Controller.POSITION_DATA_LENGTH, loopTime, elapsed,
                      lead, run, frames, sleeps, rounds)
    requires Mirrored(copies, frames)
    ensures forall i :: 0 <= i < |copies| ==>
              copies[i].request.WritePositionOp? && copies[i].request.speed.None? && copies[i].request.acceleration.None?
              && GroupReadOutcome(ids, Controller.PRESENT_POSITION_ADDR, Controller.POSITION_DATA_LENGTH, rounds[i])
                 == Ok(copies[i].request.positions)
    ensures forall i, k :: 0 <= i < |copies| && copies[i].request.WritePositionOp? && k in copies[i].request.positions ==> k in ids
    ensures run == Pass <==> |copies| == |elapsed|
    ensures run.Fail? ==> |rounds| == |copies| + 1
  {
    PacedRunFrames(ids, Controller.PRESENT_POSITION_ADDR, Controller.POSITION_DATA_LENGTH, loopTime, elapsed,
                   lead, run, frames, sleeps, rounds);
  }

  /** The body of the `with` block over what each line carried: the
      voltage read on the first arm, then the copying loop at `FREQUENCY`
      with the leader chosen from that voltage. */
  predicate Teleoperates(ids1: seq<int>, ids2: seq<int>, elapsed: seq<real>, t1: seq<Exchange>, t2: seq<Exchange>,
                         voltage1: real, run: Outcome, frames: seq<map<int, int>>, sleeps: seq<Option<real>>,
                         rounds: seq<seq<Exchange>>) {
    |t1| >= 1 && t1[0].request == ReadVoltageOp(SERVO_IDS[0]) && t1[0].reply.measure == voltage1
    && (voltage1 < VOLTAGE_THRESHOLD ==>
          PacedRun(ids1, Controller.PRESENT_POSITION_ADDR, Controller.POSITION_DATA_LENGTH,
                   1.0 / FREQUENCY, elapsed, t1[1..], run, frames, sleeps, rounds)
          && Mirrored(t2, frames))
    && (!(voltage1 < VOLTAGE_THRESHOLD) ==>
          PacedRun(ids2, Controller.PRESENT_POSITION_ADDR, Controller.POSITION_DATA_LENGTH,
                   1.0 / FREQUENCY, elapsed, t2, run, frames, sleeps, rounds)
          && Mirrored(t1[1..], frames))
  }

  /** The script's `with` block and how it ends: the session's exception
      leaves `main`, Ctrl+C does not. */
  predicate TeleopRuns(a1: Arm, a2: Arm, elapsed: seq<real>, x1: Traffic, x2: Traffic,
                       first: Outcome, second: Outcome, entry: Outcome, voltage1: real, run: Outcome,
                       frames: seq<map<int, int>>, sleeps: seq<Option<real>>, rounds: seq<seq<Exchange>>, ending: Ending) {
    if entry.Fail? then
      WithTraffic(a1, a2, x1, x2, first, second, entry) && ending == Raised(entry.error)
    else
      WithTraffic(a1, a2, x1, x2, first, second, entry) && ending == EndingOf(run)
      && Teleoperates(a1.ids, a2.ids, elapsed, x1.body, x2.body, voltage1, run, frames, sleeps, rounds)
  }

  /** A block one of the arms refused to enter. */
  lemma TeleopRefused(a1: Arm, a2: Arm, elapsed: seq<real>, in1: seq<Exchange>, back1: seq<Exchange>, in2: seq<Exchange>,
                      first: Outcome, second: Outcome, entry: Outcome, voltage1: real, run: Outcome,
                      frames: seq<map<int, int>>, sleeps: seq<Option<real>>, rounds: seq<seq<Exchange>>)
    requires entry.Fail? && Opens(a1.port, a1.baudrate, in1, first)
    requires first.Fail? ==> entry == first && back1 == [] && in2 == []
    requires first == Pass ==>
               Opens(a2.port, a2.baudrate, in2, second) && second.Fail? && entry == second
               && Requests(back1) == DisableThenClose(a1.ids)
    ensures TeleopRuns(a1, a2, elapsed, Traffic(in1, [], back1), Traffic(in2, [], []), first, second, entry,
                       voltage1, run, frames, sleeps, rounds, Raised(entry.error))
  {
    Refused(a1, a2, in1, back1, in2, first, second, entry);
  }

  /** A session inside a block both arms entered. */
  lemma TeleopEntered(a1: Arm, a2: Arm, elapsed: seq<real>, x1: Traffic, x2: Traffic, voltage1: real, run: Outcome,
                      frames: seq<map<int, int>>, sleeps: seq<Option<real>>, rounds: seq<seq<Exchange>>)
    requires Opens(a1.port, a1.baudrate, x1.entering, Pass) && Opens(a2.port, a2.baudrate, x2.entering, Pass)
    requires Requests(x1.leaving) == DisableThenClose(a1.ids) && Requests(x2.leaving) == DisableThenClose(a2.ids)
    requires Teleoperates(a1.ids, a2.ids, elapsed, x1.body, x2.body, voltage1, run, frames, sleeps, rounds)
    ensures TeleopRuns(a1, a2, elapsed, x1, x2, Pass, Pass, Pass, voltage1, run, frames, sleeps, rounds, EndingOf(run))
  {
    Entered(a1, a2, x1, x2);
  }

  /** The script exits with 0 exactly when both arms connected and no
      leader read failed before Ctrl+C; the follower then received one
      copy of the leader's reading per iteration. */
  lemma TeleopRunsEnd(a1: Arm, a2: Arm, elapsed: seq<real>, x1: Traffic, x2: Traffic,
                      first: Outcome, second: Outcome, entry: Outcome, voltage1: real, run: Outcome,
                      frames: seq<map<int, int>>, sleeps: seq<Option<real>>, rounds: seq<seq<Exchange>>, ending: Ending)
    requires TeleopRuns(a1, a2, elapsed, x1, x2, first, second, entry, voltage1, run, frames, sleeps, rounds, ending)
    ensures ExitStatus(ending) == 0 <==> entry == Pass && run == Pass
    ensures ExitStatus(ending) == 0 && voltage1 < VOLTAGE_THRESHOLD ==> |x2.body| == |elapsed|
    ensures ExitStatus(ending) == 0 && !(voltage1 < VOLTAGE_THRESHOLD) ==> |x1.body| == |elapsed| + 1
  {
    if entry == Pass {
      var t1, t2 := x1.body, x2.body;
      if voltage1 < VOLTAGE_THRESHOLD {
        MirrorCopies(a1.ids, 1.0 / FREQUENCY, elapsed, t1[1..], t2, run, frames, sleeps, rounds);
      } else {
        MirrorCopies(a2.ids, 1.0 / FREQUENCY, elapsed, t2, t1[1..], run, frames, sleeps, rounds);
      }
    }
  }

  /** The body of the `with` block: read the first arm's voltage, choose
      the roles from it, then copy the leader onto the follower at
      `FREQUENCY`. */
  method Session(c1: Controller.ServoController, c2: Controller.ServoController, elapsed: seq<real>)
    returns (run: Outcome, frames: seq<map<int, int>>, sleeps: seq<Option<real>>,
             ghost voltage1: real, ghost leaderFirst: bool, ghost rounds: seq<seq<Exchange>>)
    requires c1.Valid() && c2.Valid() && c1.connected && c2.connected && c1 != c2 && c1.bus != c2.bus
    modifies c1.bus, c2.bus
    ensures Extends(old(c1.bus.history), c1.bus.history) && Extends(old(c2.bus.history), c2.bus.history)
    ensures leaderFirst <==> voltage1 < VOLTAGE_THRESHOLD
    ensures Teleoperates(c1.servoIds, c2.servoIds, elapsed, Added(old(c1.bus.history), c1.bus.history),
                         Added(old(c2.bus.history), c2.bus.history), voltage1, run, frames, sleeps, rounds)
  {
    ghost var h1 := c1.bus.history;
    var volts := c1.ReadVoltage(SERVO_IDS[0]);
    voltage1 := volts;
    ghost var h2 := c1.bus.history;
    var roles := Roles(volts, c1, c2);
    leaderFirst := volts < VOLTAGE_THRESHOLD;
    run, frames, sleeps, rounds := Mirror(roles.0, roles.1, 1.0 / FREQUENCY, elapsed);
    AddedTwice(h1, h2, c1.bus.history);
    assert Added(h1, c1.bus.history)[1..] == Added(h2, c1.bus.history);
  }

  /** `main`: find two adapters, build a controller on each, and run the
      session inside `with ctrl1, ctrl2:`. Fewer than two adapters end
      `main` before anything is built. `line1` and `line2` are the serial
      lines behind the first and second listed adapter. */
  method TeleopMain(system: string, devices: seq<string>, line1: Bus, line2: Bus, elapsed: seq<real>)
    returns (ending: Ending, arms: Option<(Controller.ServoController, Controller.ServoController)>,
             ghost x1: Traffic, ghost x2: Traffic, ghost first: Outcome, ghost second: Outcome, ghost entry: Outcome,
             ghost voltage1: real, ghost run: Outcome,
             ghost frames: seq<map<int, int>>, ghost sleeps: seq<Option<real>>, ghost rounds: seq<seq<Exchange>>)
    requires line1 != line2
    modifies line1, line2
    ensures Extends(old(line1.history), line1.history) && Extends(old(line2.history), line2.history)
    ensures var ports := PortDiscovery.FindServoPorts(system, devices);
            (|ports| < 2 ==> ending == Returned && arms.None?
                             && line1.history == old(line1.history) && line2.history == old(line2.history))
            && (|ports| >= 2 ==>
                  arms.Some? && fresh(arms.value.0) && fresh(arms.value.1)
                  && arms.value.0.port == ports[0] && arms.value.1.port == ports[1]
                  && arms.value.0.bus == line1 && arms.value.1.bus == line2)
    ensures arms.Some? ==>
              var (c1, c2) := arms.value;
              c1.Valid() && c2.Valid() && !c1.connected && !c2.connected
              && c1.servoIds == SERVO_IDS && c2.servoIds == SERVO_IDS
              && c1.servoType == SERVO_TYPE && c2.servoType == SERVO_TYPE
              && c1.baudrate == BAUDRATE && c2.baudrate == BAUDRATE
    ensures arms.Some? ==>
              var (c1, c2) := arms.value;
              Added(old(line1.history), line1.history) == x1.All() && Added(old(line2.history), line2.history) == x2.All()
              && TeleopRuns(Arm(SERVO_IDS, c1.port, BAUDRATE), Arm(SERVO_IDS, c2.port, BAUDRATE), elapsed, x1, x2,
                            first, second, entry, voltage1, run, frames, sleeps, rounds, ending)
  {
    x1, x2, first, second, entry, voltage1, run := Traffic([], [], []), Traffic([], [], []), Pass, Pass, Pass, 0.0, Pass;
    frames, sleeps, rounds := [], [], [];
    arms := None;
    var ports := PortDiscovery.FindServoPorts(system, devices);
    if |ports| < 2 {
      return Returned, None, x1, x2, first, second, entry, voltage1, run, frames, sleeps, rounds;
    }
    ListedPortsNamed(system, devices, 0);
    ListedPortsNamed(system, devices, 1);
    var built1 := Controller.NewServoController(SERVO_IDS, SERVO_TYPE, Some(ports[0]), BAUDRATE, system, devices, line1);
    var built2 := Controller.NewServoController(SERVO_IDS, SERVO_TYPE, Some(ports[1]), BAUDRATE, system, devices, line2);
    var c1, c2 := built1.value, built2.value;
    arms := Some((c1, c2));
    ending, x1, x2, first, second, entry, voltage1, run, frames, sleeps, rounds := WithBoth(c1, c2, elapsed);
  }

  /** What follows `__enter__` in `with ctrl1, ctrl2:`: nothing when it
      raised, otherwise the session and both controllers' `__exit__`. */
  method PastEntry(c1: Controller.ServoController, c2: Controller.ServoController, elapsed: seq<real>,
                entered: Outcome, ghost first: Outcome, ghost second: Outcome,
                ghost h1: seq<Exchange>, ghost h2: seq<Exchange>,
                ghost in1: seq<Exchange>, ghost back1: seq<Exchange>, ghost in2: seq<Exchange>)
    returns (ending: Ending, ghost x1: Traffic, ghost x2: Traffic, ghost voltage1: real, ghost run: Outcome,
             ghost frames: seq<map<int, int>>, ghost sleeps: seq<Option<real>>, ghost rounds: seq<seq<Exchange>>)
    requires c1.Valid() && c2.Valid() && c1 != c2 && c1.bus != c2.bus
    requires c1.bus.history == h1 + in1 + back1 && c2.bus.history == h2 + in2
    requires Opens(c1.port, c1.baudrate, in1, first)
    requires first.Fail? ==> entered == first && back1 == [] && in2 == [] && !c1.connected && !c2.connected
    requires first == Pass ==> Opens(c2.port, c2.baudrate, in2, second)
    requires first == Pass && second.Fail? ==>
               entered == second && !c1.connected && !c2.connected && Requests(back1) == DisableThenClose(c1.servoIds)
    requires first == Pass && second == Pass ==> entered == Pass && c1.connected && c2.connected && back1 == []
    modifies c1, c2, c1.bus, c2.bus
    ensures c1.Valid() && c2.Valid() && !c1.connected && !c2.connected
    ensures c1.bus.history == h1 + x1.All() && c2.bus.history == h2 + x2.All()
    ensures TeleopRuns(Arm(c1.servoIds, c1.port, c1.baudrate), Arm(c2.servoIds, c2.port, c2.baudrate), elapsed, x1, x2,
                       first, second, entered, voltage1, run, frames, sleeps, rounds, ending)
  {
    run, voltage1, frames, sleeps, rounds := Pass, 0.0, [], [], [];
    ghost var a1, a2 := Arm(c1.servoIds, c1.port, c1.baudrate), Arm(c2.servoIds, c2.port, c2.baudrate);
    if entered.Fail? {
      ending, x1, x2 := Raised(entered.error), Traffic(in1, [], back1), Traffic(in2, [], []);
      TeleopRefused(a1, a2, elapsed, in1, back1, in2, first, second, entered, voltage1, run, frames, sleeps, rounds);
      RefusedTraffic(h1, c1.bus.history, x1);
      RefusedTraffic(h2, c2.bus.history, x2);
      return;
    }
    ghost var m1, m2 := c1.bus.history, c2.bus.history;
    ending, x1, x2, voltage1, run, frames, sleeps, rounds := Block(c1, c2, elapsed, in1, in2);
    TeleopEntered(a1, a2, elapsed, x1, x2, voltage1, run, frames, sleeps, rounds);
    CarriedTraffic(h1, m1, m1 + x1.body, c1.bus.history, x1);
    CarriedTraffic(h2, m2, m2 + x2.body, c2.bus.history, x2);
  }

  /** The body of the block once both arms are connected: the session,
      then both controllers' `__exit__`. */
  method Block(c1: Controller.ServoController, c2: Controller.ServoController, elapsed: seq<real>,
               ghost in1: seq<Exchange>, ghost in2: seq<Exchange>)
    returns (ending: Ending, ghost x1: Traffic, ghost x2: Traffic, ghost voltage1: real, ghost run: Outcome,
             ghost frames: seq<map<int, int>>, ghost sleeps: seq<Option<real>>, ghost rounds: seq<seq<Exchange>>)
    requires c1.Valid() && c2.Valid() && c1.connected && c2.connected && c1 != c2 && c1.bus != c2.bus
    requires Opens(c1.port, c1.baudrate, in1, Pass) && Opens(c2.port, c2.baudrate, in2, Pass)
    modifies c1, c2, c1.bus, c2.bus
    ensures c1.Valid() && c2.Valid() && !c1.connected && !c2.connected
    ensures x1.entering == in1 && c1.bus.history == old(c1.bus.history) + x1.body + x1.leaving
    ensures x2.entering == in2 && c2.bus.history == old(c2.bus.history) + x2.body + x2.leaving
    ensures ending == EndingOf(run)
    ensures Requests(x1.leaving) == DisableThenClose(c1.servoIds) && Requests(x2.leaving) == DisableThenClose(c2.servoIds)
    ensures Teleoperates(c1.servoIds, c2.servoIds, elapsed, x1.body, x2.body, voltage1, run, frames, sleeps, rounds)
  {
    ghost var m1, m2 := c1.bus.history, c2.bus.history;
    var finished;
    ghost var leaderFirst;
    finished, frames, sleeps, voltage1, leaderFirst, rounds := Session(c1, c2, elapsed);
    run := finished;
    ghost var n1, n2 := c1.bus.history, c2.bus.history;
    ghost var back1, back2 := Leave(c1, c2);
    ending := EndingOf(finished);
    x1 := Traffic(in1, Added(m1, n1), back1);
    x2 := Traffic(in2, Added(m2, n2), back2);
  }

  /** `with ctrl1, ctrl2:` around the session: both arms are released
      whatever happened, and the session's exception, if any, leaves
      `main`; Ctrl+C does not. */
  method WithBoth(c1: Controller.ServoController, c2: Controller.ServoController, elapsed: seq<real>)
    returns (ending: Ending, ghost x1: Traffic, ghost x2: Traffic, ghost first: Outcome, ghost second: Outcome,
             ghost entry: Outcome, ghost voltage1: real, ghost run: Outcome,
             ghost frames: seq<map<int, int>>, ghost sleeps: seq<Option<real>>, ghost rounds: seq<seq<Exchange>>)
    requires c1.Valid() && c2.Valid() && !c1.connected && !c2.connected && c1 != c2 && c1.bus != c2.bus
    modifies c1, c2, c1.bus, c2.bus
    ensures c1.Valid() && c2.Valid() && !c1.connected && !c2.connected
    ensures Extends(old(c1.bus.history), c1.bus.history) && Extends(old(c2.bus.history), c2.bus.history)
    ensures Added(old(c1.bus.history), c1.bus.history) == x1.All() && Added(old(c2.bus.history), c2.bus.history) == x2.All()
    ensures TeleopRuns(Arm(c1.servoIds, c1.port, c1.baudrate), Arm(c2.servoIds, c2.port, c2.baudrate), elapsed, x1, x2,
                       first, second, entry, voltage1, run, frames, sleeps, rounds, ending)
  {
    ghost var h1, h2 := c1.bus.history, c2.bus.history;
    var entered;
    ghost var in1, back1, in2;
    entered, first, second, in1, back1, in2 := Enter(c1, c2);
    entry := entered;
    ending, x1, x2, voltage1, run, frames, sleeps, rounds := PastEntry(c1, c2, elapsed, entered, first, second, h1, h2, in1, back1, in2);
    AddedSuffix(h1, c1.bus.history, x1.All());
    AddedSuffix(h2, c2.bus.history, x2.All());
  }
}
