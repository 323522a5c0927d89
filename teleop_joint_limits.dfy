/** The joint-limit teleoperation example
    (`examples/teleoperation_with_joint_limits.py`): an HLS arm on the first
    adapter and an STS arm on the second; after the roles are chosen, the
    follower sweeps its joint limits, is moved slowly to the leader's pose
    and polled until it is there or five seconds have passed, and then
    copies the leader at 200 Hz until Ctrl+C. */
module TeleopJointLimits {
  import opened Errors
  import opened Bus
  import opened SyncRead
  import opened Pacing
  import opened ReadLoop
  import opened Endings
  import opened Connection
  import Controller
  import Teleop
  import PortDiscovery

  const SERVO_IDS: seq<int> := [1, 2, 3, 4, 5, 6, 7]
  const LEADER_SERVO_TYPE := "hls"
  const FOLLOWER_SERVO_TYPE := "sts"
  const FREQUENCY: real := 200.0
  /** The first move towards the leader's pose is slow. */
  const INITIAL_SPEED := 100
  const INITIAL_ACCELERATION := 10
  /** A follower servo this close to its target counts as there. */
  const SYNC_TOLERANCE := 20
  /** Seconds the follower is given to reach the leader's pose. */
  const SYNC_TIMEOUT: real := 5.0

  function Abs(x: int): nat {
    if x < 0 then -x else x
  }

  /** The convergence test of the polling loop: the differences are taken
      for every servo in the follower's reading, so one the target lacks
      raises KeyError; otherwise the follower is there when no difference
      exceeds the tolerance. */
  function SyncCheck(target: map<int, int>, current: map<int, int>): (r: Result<bool>)
    ensures r.Err? <==> exists k :: k in current && k !in target
    ensures r.Err? ==> r.error == KeyError
    ensures r.Ok? ==> (r.value <==> forall k :: k in current ==> -SYNC_TOLERANCE <= current[k] - target[k] <= SYNC_TOLERANCE)
  {
    if exists k :: k in current && k !in target then Err(KeyError)
    else Ok(forall k | k in current :: Abs(current[k] - target[k]) <= SYNC_TOLERANCE)
  }

  /** A follower that reports exactly the target is there. */
  lemma SyncAtTarget(target: map<int, int>)
    ensures SyncCheck(target, target) == Ok(true)
  {
  }

  /** A reading with no data at all passes the test: an empty reading
      counts as synchronized. */
  lemma EmptyReadingSyncs(target: map<int, int>)
    ensures SyncCheck(target, map[]) == Ok(true)
  {
  }

  /** When both readings cover the same servos, the test does not depend
      on which one is the target. */
  lemma SyncSymmetric(a: map<int, int>, b: map<int, int>)
    requires a.Keys == b.Keys
    ensures SyncCheck(a, b) == SyncCheck(b, a)
  {
    assert SyncCheck(a, b).Ok? && SyncCheck(b, a).Ok?;
    if SyncCheck(a, b).value {
      forall k | k in a ensures -SYNC_TOLERANCE <= a[k] - b[k] <= SYNC_TOLERANCE {
        assert k in b;
      }
    }
  }

  /** How the polling loop ends when nothing is raised. */
  datatype SyncEnd = Synchronized | TimedOut

  /** The `time.time()` reading at check `k` (`clock[0]` is the start)
      shows that the timeout has passed. */
  predicate TimedOutAt(clock: seq<real>, k: nat)
    requires k < |clock|
  {
    clock[k] - clock[0] > SYNC_TIMEOUT
  }

  /** What one poll concludes: the read's exception, or the test. */
  function Verdict(ids: seq<int>, target: map<int, int>, round: seq<Exchange>): Result<bool>
    requires IsGroupRead(ids, Controller.PRESENT_POSITION_ADDR, Controller.POSITION_DATA_LENGTH, round)
  {
    var read := GroupReadOutcome(ids, Controller.PRESENT_POSITION_ADDR, Controller.POSITION_DATA_LENGTH, round);
    if read.Err? then Err(read.error) else SyncCheck(target, read.value)
  }

  /** The polling loop so far: every poll came before the timeout, read
      the follower and found it not yet there. */
  predicate Polling(ids: seq<int>, target: map<int, int>, clock: seq<real>, rounds: seq<seq<Exchange>>) {
    |rounds| < |clock|
    && GroupReadsOf(ids, Controller.PRESENT_POSITION_ADDR, Controller.POSITION_DATA_LENGTH, rounds)
    && (forall k :: 0 < k <= |rounds| ==> !TimedOutAt(clock, k))
    && (forall i :: 0 <= i < |rounds| ==> Verdict(ids, target, rounds[i]) == Ok(false))
  }

  /** A complete polling loop: the polls before the last found the follower
      not there; the loop then timed out, or its last poll found the
      follower there or raised. */
  predicate SyncRun(ids: seq<int>, target: map<int, int>, clock: seq<real>, t: seq<Exchange>,
                    rounds: seq<seq<Exchange>>, r: Result<SyncEnd>) {
    t == Concat(rounds)
    && if r == Ok(TimedOut) then
         Polling(ids, target, clock, rounds) && |rounds| + 1 < |clock| && TimedOutAt(clock, |rounds| + 1)
       else
         |rounds| > 0 && Polling(ids, target, clock, rounds[..|rounds| - 1])
         && |rounds| < |clock| && !TimedOutAt(clock, |rounds|)
         && IsGroupRead(ids, Controller.PRESENT_POSITION_ADDR, Controller.POSITION_DATA_LENGTH, rounds[|rounds| - 1])
         && (r == Ok(Synchronized) <==> Verdict(ids, target, rounds[|rounds| - 1]) == Ok(true))
         && (r.Err? <==> Verdict(ids, target, rounds[|rounds| - 1]).Err?)
         && (r.Err? ==> r.error == Verdict(ids, target, rounds[|rounds| - 1]).error)
  }

  /** The loop's outcome is decided by the clock and the readings alone:
      it never reports synchronization without a poll that passed the
      test, and a timeout only after a reading past the limit. */
  lemma SyncRunEnds(ids: seq<int>, target: map<int, int>, clock: seq<real>, t: seq<Exchange>,
                    rounds: seq<seq<Exchange>>, r: Result<SyncEnd>)
    requires SyncRun(ids, target, clock, t, rounds, r)
    ensures r == Ok(Synchronized) ==>
              exists k :: 0 < k <= |rounds| && !TimedOutAt(clock, k)
                          && Verdict(ids, target, rounds[k - 1]) == Ok(true)
    ensures r == Ok(TimedOut) ==> exists k :: 0 < k < |clock| && TimedOutAt(clock, k)
    ensures r.Err? ==> r.error == KeyError || r.error == CommunicationError(GroupReadFailed)
  {
    if r == Ok(Synchronized) {
      var k := |rounds|;
      assert !TimedOutAt(clock, k) && Verdict(ids, target, rounds[k - 1]) == Ok(true);
    }
    if r == Ok(TimedOut) {
      assert TimedOutAt(clock, |rounds| + 1);
    }
  }

  /** The `while True` polling loop: check the clock, read the follower,
      test the reading. The clock readings are an input; the last one is
      past the timeout, as time eventually passes. */
  method PollFollower(follower: Controller.ServoController, target: map<int, int>, clock: seq<real>)
    returns (r: Result<SyncEnd>, ghost rounds: seq<seq<Exchange>>)
    requires follower.Valid() && follower.connected
    requires |clock| > 0 && TimedOutAt(clock, |clock| - 1)
    modifies follower.bus
    ensures Extends(old(follower.bus.history), follower.bus.history)
    ensures SyncRun(follower.servoIds, target, clock, Added(old(follower.bus.history), follower.bus.history), rounds, r)
  {
    rounds := [];
    var k := 0;
    while true
      invariant k == |rounds| && k + 1 < |clock|
      invariant follower.bus.history == old(follower.bus.history) + Concat(rounds)
      invariant Polling(follower.servoIds, target, clock, rounds)
      decreases |clock| - k
    {
      if clock[k + 1] - clock[0] > SYNC_TIMEOUT {
        AddedSuffix(old(follower.bus.history), follower.bus.history, Concat(rounds));
        return Ok(TimedOut), rounds;
      }
      var verdict, read := Poll(follower, target, clock, old(follower.bus.history), rounds);
      if verdict.Err? || verdict.value {
        rounds := rounds + [read];
        AddedSuffix(old(follower.bus.history), follower.bus.history, Concat(rounds));
        return if verdict.Err? then Err(verdict.error) else Ok(Synchronized), rounds;
      }
      rounds := rounds + [read];
      k := k + 1;
    }
  }

  /** One poll that came before the timeout. */
  method Poll(follower: Controller.ServoController, target: map<int, int>, clock: seq<real>,
              ghost start: seq<Exchange>, ghost rounds: seq<seq<Exchange>>)
    returns (verdict: Result<bool>, ghost read: seq<Exchange>)
    requires follower.Valid() && follower.connected && follower.bus.history == start + Concat(rounds)
    requires Polling(follower.servoIds, target, clock, rounds) && |rounds| + 1 < |clock|
    requires !TimedOutAt(clock, |rounds| + 1)
    modifies follower.bus
    ensures follower.bus.history == start + Concat(rounds + [read])
    ensures IsGroupRead(follower.servoIds, Controller.PRESENT_POSITION_ADDR, Controller.POSITION_DATA_LENGTH, read)
    ensures verdict == Verdict(follower.servoIds, target, read)
    ensures verdict == Ok(false) ==> Polling(follower.servoIds, target, clock, rounds + [read])
    ensures verdict != Ok(false) ==>
              SyncRun(follower.servoIds, target, clock, Concat(rounds + [read]), rounds + [read],
                      if verdict.Err? then Err(verdict.error) else Ok(Synchronized))
  {
    ghost var h := follower.bus.history;
    var current := follower.ReadPositions(None);
    read := Added(h, follower.bus.history);
    ExtendParts(start, rounds, h, follower.bus.history);
    if current.Err? {
      verdict := Err(current.error);
    } else {
      verdict := SyncCheck(target, current.value);
    }
    if verdict == Ok(false) {
      PollPasses(follower.servoIds, target, clock, rounds, read);
    } else {
      PollStops(follower.servoIds, target, clock, rounds, read);
    }
  }

  /** A poll that found the follower not yet there extends the loop. */
  lemma PollPasses(ids: seq<int>, target: map<int, int>, clock: seq<real>, rounds: seq<seq<Exchange>>, read: seq<Exchange>)
    requires Polling(ids, target, clock, rounds) && |rounds| + 1 < |clock| && !TimedOutAt(clock, |rounds| + 1)
    requires IsGroupRead(ids, Controller.PRESENT_POSITION_ADDR, Controller.POSITION_DATA_LENGTH, read)
    requires Verdict(ids, target, read) == Ok(false)
    ensures Polling(ids, target, clock, rounds + [read])
  {
    var more := rounds + [read];
    forall i | 0 <= i < |more|
      ensures IsGroupRead(ids, Controller.PRESENT_POSITION_ADDR, Controller.POSITION_DATA_LENGTH, more[i])
      ensures Verdict(ids, target, more[i]) == Ok(false)
    {
      if i < |rounds| {
        assert more[i] == rounds[i];
      } else {
        assert more[i] == read;
      }
    }
    forall k | 0 < k <= |more| ensures !TimedOutAt(clock, k) {
    }
  }

  /** A poll that found the follower there, or raised, ends the loop. */
  lemma PollStops(ids: seq<int>, target: map<int, int>, clock: seq<real>, rounds: seq<seq<Exchange>>, read: seq<Exchange>)
    requires Polling(ids, target, clock, rounds) && |rounds| + 1 < |clock| && !TimedOutAt(clock, |rounds| + 1)
    requires IsGroupRead(ids, Controller.PRESENT_POSITION_ADDR, Controller.POSITION_DATA_LENGTH, read)
    requires Verdict(ids, target, read) != Ok(false)
    ensures var v := Verdict(ids, target, read);
            SyncRun(ids, target, clock, Concat(rounds + [read]), rounds + [read],
                    if v.Err? then Err(v.error) else Ok(Synchronized))
  {
    var more := rounds + [read];
    assert more[..|rounds|] == rounds;
    assert more[|rounds|] == read;
  }

  /** What the follower goes through once the roles are chosen: the
      joint-limit sweep, a slow move to the leader's pose, the polling
      loop, and then the copying loop at `FREQUENCY`. Any exception
      skips the rest. */
  method Follow(leader: Controller.ServoController, follower: Controller.ServoController,
                clock: seq<real>, elapsed: seq<real>)
    returns (run: Outcome, frames: seq<map<int, int>>, sleeps: seq<Option<real>>,
             ghost initial: Result<map<int, int>>, ghost sync: Result<SyncEnd>,
             ghost lead0: seq<Exchange>, ghost lead1: seq<Exchange>,
             ghost setup: seq<Exchange>, ghost polls: seq<Exchange>, ghost copies: seq<Exchange>,
             ghost pollRounds: seq<seq<Exchange>>, ghost rounds: seq<seq<Exchange>>)
    requires leader.Valid() && leader.connected && follower.Valid() && follower.connected
    requires leader.bus != follower.bus
    requires |clock| > 0 && TimedOutAt(clock, |clock| - 1)
    modifies leader.bus, follower.bus
    ensures leader.bus.history == old(leader.bus.history) + lead0 + lead1
    ensures follower.bus.history == old(follower.bus.history) + setup + polls + copies
    ensures IsGroupRead(leader.servoIds, Controller.PRESENT_POSITION_ADDR, Controller.POSITION_DATA_LENGTH, lead0)
    ensures initial == Controller.ReadOutcome(leader.servoIds, lead0)
    ensures Requests(setup) == [JointLimitCalibrationOp]
                               + (if initial.Ok? then [WritePositionOp(initial.value, Some(INITIAL_SPEED), Some(INITIAL_ACCELERATION))]
                                  else [])
    ensures initial.Err? ==> run == Fail(initial.error) && polls == [] && lead1 == [] && copies == []
    ensures initial.Ok? ==> SyncRun(follower.servoIds, initial.value, clock, polls, pollRounds, sync)
    ensures initial.Ok? && sync.Err? ==> run == Fail(sync.error) && lead1 == [] && copies == []
    ensures initial.Ok? && sync.Ok? ==>
              PacedRun(leader.servoIds, Controller.PRESENT_POSITION_ADDR, Controller.POSITION_DATA_LENGTH,
                       1.0 / FREQUENCY, elapsed, lead1, run, frames, sleeps, rounds)
              && Teleop.Mirrored(copies, frames)
  {
    frames, sleeps, sync, lead1, polls, copies, pollRounds, rounds := [], [], Ok(TimedOut), [], [], [], [], [];
    ghost var f0 := follower.bus.history;
    follower.JointLimitCalibration();
    ghost var l0 := leader.bus.history;
    var positions := leader.ReadPositions(None);
    initial, lead0 := positions, Added(l0, leader.bus.history);
    if positions.Err? {
      setup := Added(f0, follower.bus.history);
      assert [JointLimitCalibrationOp] + [] == [JointLimitCalibrationOp];
      return Fail(positions.error), frames, sleeps, initial, sync, lead0, lead1, setup, polls, copies, pollRounds, rounds;
    }
    ghost var f1 := follower.bus.history;
    follower.WritePosition(positions.value, Some(INITIAL_SPEED), Some(INITIAL_ACCELERATION));
    RequestsTwice(f0, f1, follower.bus.history);
    setup := Added(f0, follower.bus.history);
    ghost var f2 := follower.bus.history;
    var synced;
    synced, pollRounds := PollFollower(follower, positions.value, clock);
    sync, polls := synced, Added(f2, follower.bus.history);
    if synced.Err? {
      return Fail(synced.error), frames, sleeps, initial, sync, lead0, lead1, setup, polls, copies, pollRounds, rounds;
    }
    ghost var l1, f3 := leader.bus.history, follower.bus.history;
    run, frames, sleeps, rounds := Teleop.Mirror(leader, follower, 1.0 / FREQUENCY, elapsed);
    lead1, copies := Added(l1, leader.bus.history), Added(f3, follower.bus.history);
  }

  /** What the follow phase sent and saw: on the leader's line its first
      reading (`lead0`) and the copying loop's reads (`lead1`); on the
      follower's line the sweep and the slow move (`setup`), the polls and
      the copies; the initial reading, how the wait ended, the polling
      rounds, and the copying loop's frames, sleeps and rounds. */
  datatype FollowRecord = FollowRecord(lead0: seq<Exchange>, lead1: seq<Exchange>,
                                       setup: seq<Exchange>, polls: seq<Exchange>, copies: seq<Exchange>,
                                       initial: Result<map<int, int>>, sync: Result<SyncEnd>, pollRounds: seq<seq<Exchange>>,
                                       frames: seq<map<int, int>>, sleeps: seq<Option<real>>, rounds: seq<seq<Exchange>>)

  /** The follow phase over what it sent: the joint-limit sweep, the
      leader's reading, a slow move of the follower to it, the polling
      loop, then the copying loop at `FREQUENCY`. Any exception skips the
      rest. */
  predicate Follows(leaderIds: seq<int>, followerIds: seq<int>, clock: seq<real>, elapsed: seq<real>,
                    f: FollowRecord, run: Outcome) {
    IsGroupRead(leaderIds, Controller.PRESENT_POSITION_ADDR, Controller.POSITION_DATA_LENGTH, f.lead0)
    && f.initial == Controller.ReadOutcome(leaderIds, f.lead0)
    && Requests(f.setup) == [JointLimitCalibrationOp]
                            + (if f.initial.Ok? then [WritePositionOp(f.initial.value, Some(INITIAL_SPEED), Some(INITIAL_ACCELERATION))]
                               else [])
    && (f.initial.Err? ==> run == Fail(f.initial.error) && f.polls == [] && f.lead1 == [] && f.copies == [])
    && (f.initial.Ok? ==> SyncRun(followerIds, f.initial.value, clock, f.polls, f.pollRounds, f.sync))
    && (f.initial.Ok? && f.sync.Err? ==> run == Fail(f.sync.error) && f.lead1 == [] && f.copies == [])
    && (f.initial.Ok? && f.sync.Ok? ==>
          PacedRun(leaderIds, Controller.PRESENT_POSITION_ADDR, Controller.POSITION_DATA_LENGTH,
                   1.0 / FREQUENCY, elapsed, f.lead1, run, f.frames, f.sleeps, f.rounds)
          && Teleop.Mirrored(f.copies, f.frames))
  }

  /** The follow phase raises only a failed group read or the KeyError of
      the convergence test; the follower is copied onto only after it was
      sent the slow move to the leader's first reading and the wait ended
      without an exception; and a run that reached Ctrl+C copied once per
      iteration. */
  lemma FollowEnds(leaderIds: seq<int>, followerIds: seq<int>, clock: seq<real>, elapsed: seq<real>,
                   f: FollowRecord, run: Outcome)
    requires Follows(leaderIds, followerIds, clock, elapsed, f, run)
    ensures run == Pass || run == Fail(CommunicationError(GroupReadFailed)) || run == Fail(KeyError)
    ensures f.copies != [] || run == Pass ==>
              f.initial.Ok? && f.sync.Ok?
              && Requests(f.setup) == [JointLimitCalibrationOp,
                                       WritePositionOp(f.initial.value, Some(INITIAL_SPEED), Some(INITIAL_ACCELERATION))]
    ensures run == Pass ==> |f.copies| == |elapsed|
  {
    if f.initial.Ok? {
      SyncRunEnds(followerIds, f.initial.value, clock, f.polls, f.pollRounds, f.sync);
      if f.sync.Ok? {
        Teleop.MirrorCopies(leaderIds, 1.0 / FREQUENCY, elapsed, f.lead1, f.copies, run, f.frames, f.sleeps, f.rounds);
      }
    }
  }

  /** The body of `with ctrl1, ctrl2:` over what each line carried: one
      voltage read per arm, then the follow phase with the leader chosen
      from the first voltage alone. */
  predicate LimitSteps(ids1: seq<int>, ids2: seq<int>, clock: seq<real>, elapsed: seq<real>,
                       t1: seq<Exchange>, t2: seq<Exchange>, voltage1: real, voltage2: real, f: FollowRecord, run: Outcome) {
    |t1| >= 1 && t1[0].request == ReadVoltageOp(SERVO_IDS[0]) && t1[0].reply.measure == voltage1
    && |t2| >= 1 && t2[0].request == ReadVoltageOp(SERVO_IDS[1]) && t2[0].reply.measure == voltage2
    && (voltage1 < Teleop.VOLTAGE_THRESHOLD ==>
          t1[1..] == f.lead0 + f.lead1 && t2[1..] == f.setup + f.polls + f.copies
          && Follows(ids1, ids2, clock, elapsed, f, run))
    && (!(voltage1 < Teleop.VOLTAGE_THRESHOLD) ==>
          t2[1..] == f.lead0 + f.lead1 && t1[1..] == f.setup + f.polls + f.copies
          && Follows(ids2, ids1, clock, elapsed, f, run))
  }

  /** The script's `with` block and how it ends. */
  predicate LimitRuns(a1: Teleop.Arm, a2: Teleop.Arm, clock: seq<real>, elapsed: seq<real>,
                      x1: Teleop.Traffic, x2: Teleop.Traffic, first: Outcome, second: Outcome, entry: Outcome,
                      voltage1: real, voltage2: real, f: FollowRecord, run: Outcome, ending: Ending) {
    if entry.Fail? then
      Teleop.WithTraffic(a1, a2, x1, x2, first, second, entry) && ending == Raised(entry.error)
    else
      Teleop.WithTraffic(a1, a2, x1, x2, first, second, entry) && ending == EndingOf(run)
      && LimitSteps(a1.ids, a2.ids, clock, elapsed, x1.body, x2.body, voltage1, voltage2, f, run)
  }

  /** A block one of the arms refused to enter. */
  lemma LimitRefused(a1: Teleop.Arm, a2: Teleop.Arm, clock: seq<real>, elapsed: seq<real>,
                     in1: seq<Exchange>, back1: seq<Exchange>, in2: seq<Exchange>, first: Outcome, second: Outcome,
                     entry: Outcome, voltage1: real, voltage2: real, f: FollowRecord, run: Outcome)
    requires entry.Fail? && Opens(a1.port, a1.baudrate, in1, first)
    requires first.Fail? ==> entry == first && back1 == [] && in2 == []
    requires first == Pass ==>
               Opens(a2.port, a2.baudrate, in2, second) && second.Fail? && entry == second
               && Requests(back1) == Teleop.DisableThenClose(a1.ids)
    ensures LimitRuns(a1, a2, clock, elapsed, Teleop.Traffic(in1, [], back1), Teleop.Traffic(in2, [], []),
                      first, second, entry, voltage1, voltage2, f, run, Raised(entry.error))
  {
    Teleop.Refused(a1, a2, in1, back1, in2, first, second, entry);
  }

  /** A follow session inside a block both arms entered. */
  lemma LimitEntered(a1: Teleop.Arm, a2: Teleop.Arm, clock: seq<real>, elapsed: seq<real>,
                     x1: Teleop.Traffic, x2: Teleop.Traffic, voltage1: real, voltage2: real, f: FollowRecord, run: Outcome)
    requires Opens(a1.port, a1.baudrate, x1.entering, Pass) && Opens(a2.port, a2.baudrate, x2.entering, Pass)
    requires Requests(x1.leaving) == Teleop.DisableThenClose(a1.ids) && Requests(x2.leaving) == Teleop.DisableThenClose(a2.ids)
    requires LimitSteps(a1.ids, a2.ids, clock, elapsed, x1.body, x2.body, voltage1, voltage2, f, run)
    ensures LimitRuns(a1, a2, clock, elapsed, x1, x2, Pass, Pass, Pass, voltage1, voltage2, f, run, EndingOf(run))
  {
    Teleop.Entered(a1, a2, x1, x2);
  }

  /** The script exits with 0 exactly when both arms connected and the
      follow phase reached Ctrl+C; the follower was then moved slowly to
      the leader's first reading, waited for, and copied once per
      iteration. */
  lemma LimitRunsEnd(a1: Teleop.Arm, a2: Teleop.Arm, clock: seq<real>, elapsed: seq<real>,
                     x1: Teleop.Traffic, x2: Teleop.Traffic, first: Outcome, second: Outcome, entry: Outcome,
                     voltage1: real, voltage2: real, f: FollowRecord, run: Outcome, ending: Ending)
    requires LimitRuns(a1, a2, clock, elapsed, x1, x2, first, second, entry, voltage1, voltage2, f, run, ending)
    ensures ExitStatus(ending) == 0 <==> entry == Pass && run == Pass
    ensures ExitStatus(ending) == 0 ==>
              f.initial.Ok? && f.sync.Ok? && |f.copies| == |elapsed|
              && Requests(f.setup)[1] == WritePositionOp(f.initial.value, Some(INITIAL_SPEED), Some(INITIAL_ACCELERATION))
  {
    if entry == Pass && run == Pass {
      if voltage1 < Teleop.VOLTAGE_THRESHOLD {
        FollowEnds(a1.ids, a2.ids, clock, elapsed, f, run);
      } else {
        FollowEnds(a2.ids, a1.ids, clock, elapsed, f, run);
      }
    }
  }

  /** The body of `with ctrl1, ctrl2:`: read one voltage on each arm
      (servo 1 on the first, servo 2 on the second), choose the roles from
      the first voltage alone, then let the follower follow. */
  method LimitSession(c1: Controller.ServoController, c2: Controller.ServoController,
                      clock: seq<real>, elapsed: seq<real>)
    returns (run: Outcome, leader: Controller.ServoController, follower: Controller.ServoController,
             ghost voltage1: real, ghost voltage2: real, ghost f: FollowRecord, ghost t1: seq<Exchange>, ghost t2: seq<Exchange>)
    requires c1.Valid() && c2.Valid() && c1.connected && c2.connected && c1 != c2 && c1.bus != c2.bus
    requires |clock| > 0 && TimedOutAt(clock, |clock| - 1)
    modifies c1.bus, c2.bus
    ensures c1.bus.history == old(c1.bus.history) + t1 && c2.bus.history == old(c2.bus.history) + t2
    ensures (leader, follower) == Teleop.Roles(voltage1, c1, c2)
    ensures LimitSteps(c1.servoIds, c2.servoIds, clock, elapsed, t1, t2, voltage1, voltage2, f, run)
  {
    ghost var h1, h2 := c1.bus.history, c2.bus.history;
    var volts1 := c1.ReadVoltage(SERVO_IDS[0]);
    var volts2 := c2.ReadVoltage(SERVO_IDS[1]);
    voltage1, voltage2 := volts1, volts2;
    ghost var m1, m2 := c1.bus.history, c2.bus.history;
    var roles := Teleop.Roles(volts1, c1, c2);
    leader, follower := roles.0, roles.1;
    run, f := FollowRun(leader, follower, clock, elapsed);
    AddedSplit(h1, m1, c1.bus.history, 1);
    AddedSplit(h2, m2, c2.bus.history, 1);
    t1, t2 := Added(h1, c1.bus.history), Added(h2, c2.bus.history);
  }

  /** `Follow` as the session sees it: what each line carried, and the
      follow phase over it. */
  method FollowRun(leader: Controller.ServoController, follower: Controller.ServoController,
                   clock: seq<real>, elapsed: seq<real>)
    returns (run: Outcome, ghost f: FollowRecord)
    requires leader.Valid() && leader.connected && follower.Valid() && follower.connected
    requires leader.bus != follower.bus
    requires |clock| > 0 && TimedOutAt(clock, |clock| - 1)
    modifies leader.bus, follower.bus
    ensures Extends(old(leader.bus.history), leader.bus.history)
    ensures Extends(old(follower.bus.history), follower.bus.history)
    ensures Added(old(leader.bus.history), leader.bus.history) == f.lead0 + f.lead1
    ensures Added(old(follower.bus.history), follower.bus.history) == f.setup + f.polls + f.copies
    ensures Follows(leader.servoIds, follower.servoIds, clock, elapsed, f, run)
  {
    var frames, sleeps;
    ghost var initial, sync, lead0, lead1, setup, polls, copies, pollRounds, rounds;
    run, frames, sleeps, initial, sync, lead0, lead1, setup, polls, copies, pollRounds, rounds :=
      Follow(leader, follower, clock, elapsed);
    f := FollowRecord(lead0, lead1, setup, polls, copies, initial, sync, pollRounds, frames, sleeps, rounds);
    AddedPair(old(leader.bus.history), leader.bus.history, lead0, lead1);
    AddedTriple(old(follower.bus.history), follower.bus.history, setup, polls, copies);
  }

  /** What follows `__enter__` in `with ctrl1, ctrl2:`: nothing when it
      raised, otherwise the follow session and both controllers' `__exit__`. */
  method PastEntry(c1: Controller.ServoController, c2: Controller.ServoController, clock: seq<real>, elapsed: seq<real>,
                   entered: Outcome, ghost first: Outcome, ghost second: Outcome,
                   ghost h1: seq<Exchange>, ghost h2: seq<Exchange>,
                   ghost in1: seq<Exchange>, ghost back1: seq<Exchange>, ghost in2: seq<Exchange>)
    returns (ending: Ending, ghost x1: Teleop.Traffic, ghost x2: Teleop.Traffic,
             ghost voltage1: real, ghost voltage2: real, ghost f: FollowRecord, ghost run: Outcome)
    requires c1.Valid() && c2.Valid() && c1 != c2 && c1.bus != c2.bus
    requires |clock| > 0 && TimedOutAt(clock, |clock| - 1)
    requires c1.bus.history == h1 + in1 + back1 && c2.bus.history == h2 + in2
    requires Opens(c1.port, c1.baudrate, in1, first)
    requires first.Fail? ==> entered == first && back1 == [] && in2 == [] && !c1.connected && !c2.connected
    requires first == Pass ==> Opens(c2.port, c2.baudrate, in2, second)
    requires first == Pass && second.Fail? ==>
               entered == second && !c1.connected && !c2.connected && Requests(back1) == Teleop.DisableThenClose(c1.servoIds)
    requires first == Pass && second == Pass ==> entered == Pass && c1.connected && c2.connected && back1 == []
    modifies c1, c2, c1.bus, c2.bus
    ensures c1.Valid() && c2.Valid() && !c1.connected && !c2.connected
    ensures c1.bus.history == h1 + x1.All() && c2.bus.history == h2 + x2.All()
    ensures LimitRuns(Teleop.Arm(c1.servoIds, c1.port, c1.baudrate), Teleop.Arm(c2.servoIds, c2.port, c2.baudrate),
                      clock, elapsed, x1, x2, first, second, entered, voltage1, voltage2, f, run, ending)
  {
    run, voltage1, voltage2 := Pass, 0.0, 0.0;
    f := FollowRecord([], [], [], [], [], Ok(map[]), Ok(TimedOut), [], [], [], []);
    ghost var a1, a2 := Teleop.Arm(c1.servoIds, c1.port, c1.baudrate), Teleop.Arm(c2.servoIds, c2.port, c2.baudrate);
    if entered.Fail? {
      ending, x1, x2 := Raised(entered.error), Teleop.Traffic(in1, [], back1), Teleop.Traffic(in2, [], []);
      LimitRefused(a1, a2, clock, elapsed, in1, back1, in2, first, second, entered, voltage1, voltage2, f, run);
      Teleop.RefusedTraffic(h1, c1.bus.history, x1);
      Teleop.RefusedTraffic(h2, c2.bus.history, x2);
      return;
    }
    ghost var m1, m2 := c1.bus.history, c2.bus.history;
    ending, x1, x2, voltage1, voltage2, f, run := Block(c1, c2, clock, elapsed, in1, in2);
    LimitEntered(a1, a2, clock, elapsed, x1, x2, voltage1, voltage2, f, run);
    Teleop.CarriedTraffic(h1, m1, m1 + x1.body, c1.bus.history, x1);
    Teleop.CarriedTraffic(h2, m2, m2 + x2.body, c2.bus.history, x2);
  }

  /** The body of the block once both arms are connected: the follow
      session, then both controllers' `__exit__`. */
  method Block(c1: Controller.ServoController, c2: Controller.ServoController, clock: seq<real>, elapsed: seq<real>,
                ghost in1: seq<Exchange>, ghost in2: seq<Exchange>)
    returns (ending: Ending, ghost x1: Teleop.Traffic, ghost x2: Teleop.Traffic,
             ghost voltage1: real, ghost voltage2: real, ghost f: FollowRecord, ghost run: Outcome)
    requires c1.Valid() && c2.Valid() && c1.connected && c2.connected && c1 != c2 && c1.bus != c2.bus
    requires |clock| > 0 && TimedOutAt(clock, |clock| - 1)
    requires Opens(c1.port, c1.baudrate, in1, Pass) && Opens(c2.port, c2.baudrate, in2, Pass)
    modifies c1, c2, c1.bus, c2.bus
    ensures c1.Valid() && c2.Valid() && !c1.connected && !c2.connected
    ensures x1.entering == in1 && c1.bus.history == old(c1.bus.history) + x1.body + x1.leaving
    ensures x2.entering == in2 && c2.bus.history == old(c2.bus.history) + x2.body + x2.leaving
    ensures ending == EndingOf(run)
    ensures Requests(x1.leaving) == Teleop.DisableThenClose(c1.servoIds)
    ensures Requests(x2.leaving) == Teleop.DisableThenClose(c2.servoIds)
    ensures LimitSteps(c1.servoIds, c2.servoIds, clock, elapsed, x1.body, x2.body, voltage1, voltage2, f, run)
  {
    var finished, leader, follower;
    ghost var t1, t2;
    finished, leader, follower, voltage1, voltage2, f, t1, t2 := LimitSession(c1, c2, clock, elapsed);
    run := finished;
    ghost var back1, back2 := Teleop.Leave(c1, c2);
    ending := EndingOf(finished);
    x1 := Teleop.Traffic(in1, t1, back1);
    x2 := Teleop.Traffic(in2, t2, back2);
  }

  /** `with ctrl1, ctrl2:` around the session: both arms are released
      whatever happened, and the session's exception, if any, leaves
      `main`; Ctrl+C does not. */
  method WithBoth(c1: Controller.ServoController, c2: Controller.ServoController, clock: seq<real>, elapsed: seq<real>)
    returns (ending: Ending, ghost x1: Teleop.Traffic, ghost x2: Teleop.Traffic,
             ghost first: Outcome, ghost second: Outcome, ghost entry: Outcome,
             ghost voltage1: real, ghost voltage2: real, ghost f: FollowRecord, ghost run: Outcome)
    requires c1.Valid() && c2.Valid() && !c1.connected && !c2.connected && c1 != c2 && c1.bus != c2.bus
    requires |clock| > 0 && TimedOutAt(clock, |clock| - 1)
    modifies c1, c2, c1.bus, c2.bus
    ensures c1.Valid() && c2.Valid() && !c1.connected && !c2.connected
    ensures Extends(old(c1.bus.history), c1.bus.history) && Extends(old(c2.bus.history), c2.bus.history)
    ensures Added(old(c1.bus.history), c1.bus.history) == x1.All() && Added(old(c2.bus.history), c2.bus.history) == x2.All()
    ensures LimitRuns(Teleop.Arm(c1.servoIds, c1.port, c1.baudrate), Teleop.Arm(c2.servoIds, c2.port, c2.baudrate),
                      clock, elapsed, x1, x2, first, second, entry, voltage1, voltage2, f, run, ending)
  {
    ghost var h1, h2 := c1.bus.history, c2.bus.history;
    var entered;
    ghost var in1, back1, in2;
    entered, first, second, in1, back1, in2 := Teleop.Enter(c1, c2);
    entry := entered;
    ending, x1, x2, voltage1, voltage2, f, run := PastEntry(c1, c2, clock, elapsed, entered, first, second, h1, h2, in1, back1, in2);
    AddedSuffix(h1, c1.bus.history, x1.All());
    AddedSuffix(h2, c2.bus.history, x2.All());
  }

  /** `find_servo_port(return_all=True)` as the script calls it: the
      controller module's `find_servo_port` takes no argument, so the call
      raises TypeError whatever is plugged in. */
  function DiscoveryAsWritten(system: string, devices: seq<string>): (r: Result<seq<string>>)
    ensures r.Err? && r.error == TypeError
  {
    Err(TypeError)
  }

  /** What the call is evidently meant to return: every listed device
      that passes the operating-system filter, in listing order. */
  function AllServoPorts(system: string, devices: seq<string>): (r: Result<seq<string>>)
    ensures r.Ok? && r.value == PortDiscovery.FilterPorts(system, devices)
  {
    Ok(PortDiscovery.FilterPorts(system, devices))
  }

  /** The `try` around the port search: an exception, or fewer than two
      ports, ends `main`; otherwise the first two ports are used. */
  function PortsGate(discovery: Result<seq<string>>): (r: Option<(string, string)>)
    ensures r.Some? <==> discovery.Ok? && |discovery.value| >= 2
    ensures r.Some? ==> r.value == (discovery.value[0], discovery.value[1])
  {
    if discovery.Err? || |discovery.value| < 2 then None else Some((discovery.value[0], discovery.value[1]))
  }

  /** As written, the script never gets past the port search. */
  lemma AsWrittenNeverStarts(system: string, devices: seq<string>)
    ensures PortsGate(DiscoveryAsWritten(system, devices)).None?
  {
  }

  /** With the intended search, the script goes on exactly when two or
      more adapters pass the filter; the first arm is then on the port
      `find_servo_port()` would pick, and both ports have a name. */
  lemma IntendedGate(system: string, devices: seq<string>)
    ensures PortsGate(AllServoPorts(system, devices)).Some? <==> |PortDiscovery.FilterPorts(system, devices)| >= 2
    ensures PortsGate(AllServoPorts(system, devices)).Some? ==>
              var (p1, p2) := PortsGate(AllServoPorts(system, devices)).value;
              Ok(p1) == PortDiscovery.FindServoPort(system, devices)
              && PortDiscovery.IsServoPort(system, p1) && PortDiscovery.IsServoPort(system, p2)
              && p1 != "" && p2 != ""
  {
    var ports := PortDiscovery.FilterPorts(system, devices);
    PortDiscovery.FilterStartsWithFirstMatch(system, devices);
    assert !PortDiscovery.IsServoPort(system, "");
    if |ports| >= 2 {
      assert ports[0] in ports && ports[1] in ports;
    }
  }

  /** `main`, with the intended port search. Building a controller on a
      named port cannot fail for the two servo types used, so once two
      ports are found both arms exist. `line1` and `line2` are the serial
      lines behind the first and second port. */
  method JointLimitsMain(system: string, devices: seq<string>, line1: Bus, line2: Bus, clock: seq<real>, elapsed: seq<real>)
    returns (ending: Ending, arms: Option<(Controller.ServoController, Controller.ServoController)>,
             ghost x1: Teleop.Traffic, ghost x2: Teleop.Traffic, ghost first: Outcome, ghost second: Outcome,
             ghost entry: Outcome, ghost voltage1: real, ghost voltage2: real, ghost f: FollowRecord, ghost run: Outcome)
    requires line1 != line2
    requires |clock| > 0 && TimedOutAt(clock, |clock| - 1)
    modifies line1, line2
    ensures Extends(old(line1.history), line1.history) && Extends(old(line2.history), line2.history)
    ensures var gate := PortsGate(AllServoPorts(system, devices));
            (gate.None? ==> ending == Returned && arms.None?
                            && line1.history == old(line1.history) && line2.history == old(line2.history))
            && (gate.Some? ==>
                  arms.Some? && fresh(arms.value.0) && fresh(arms.value.1)
                  && arms.value.0.port == gate.value.0 && arms.value.1.port == gate.value.1
                  && arms.value.0.bus == line1 && arms.value.1.bus == line2)
    ensures arms.Some? ==>
              var (c1, c2) := arms.value;
              c1.Valid() && c2.Valid() && !c1.connected && !c2.connected
              && c1.servoType == LEADER_SERVO_TYPE && c2.servoType == FOLLOWER_SERVO_TYPE
              && c1.servoIds == SERVO_IDS && c2.servoIds == SERVO_IDS
              && c1.baudrate == Teleop.BAUDRATE && c2.baudrate == Teleop.BAUDRATE
    ensures arms.Some? ==>
              var (c1, c2) := arms.value;
              Added(old(line1.history), line1.history) == x1.All() && Added(old(line2.history), line2.history) == x2.All()
              && LimitRuns(Teleop.Arm(SERVO_IDS, c1.port, Teleop.BAUDRATE), Teleop.Arm(SERVO_IDS, c2.port, Teleop.BAUDRATE),
                           clock, elapsed, x1, x2, first, second, entry, voltage1, voltage2, f, run, ending)
  {
    x1, x2 := Teleop.Traffic([], [], []), Teleop.Traffic([], [], []);
    first, second, entry, voltage1, voltage2, run := Pass, Pass, Pass, 0.0, 0.0, Pass;
    f := FollowRecord([], [], [], [], [], Ok(map[]), Ok(TimedOut), [], [], [], []);
    arms := None;
    var gate := PortsGate(AllServoPorts(system, devices));
    if gate.None? {
      return Returned, arms, x1, x2, first, second, entry, voltage1, voltage2, f, run;
    }
    IntendedGate(system, devices);
    var (port1, port2) := gate.value;
    var built1 := Controller.NewServoController(SERVO_IDS, LEADER_SERVO_TYPE, Some(port1), Teleop.BAUDRATE,
                                                system, devices, line1);
    var built2 := Controller.NewServoController(SERVO_IDS, FOLLOWER_SERVO_TYPE, Some(port2), Teleop.BAUDRATE,
                                                system, devices, line2);
    var c1, c2 := built1.value, built2.value;
    arms := Some((c1, c2));
    ending, x1, x2, first, second, entry, voltage1, voltage2, f, run := WithBoth(c1, c2, clock, elapsed);
  }
}
