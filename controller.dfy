/** `ServoController`, the SDK's controller for STS and HLS servos: a
    connection that is either closed or open, and the servo operations that
    need it open. Every call into the serial library goes through the
    controller's `bus`. */
module Controller {
  import opened Errors
  import opened Text
  import opened Bus
  import opened SyncRead
  import opened Connection
  import PortDiscovery
  import Torque

  // Register addresses and data widths used by the controller.
  const ID_ADDR := 5
  const MODE_ADDR := 33
  const TORQUE_ENABLE_ADDR := 40
  const GOAL_TORQUE_ADDR := 44
  const PRESENT_POSITION_ADDR := 56
  const POSITION_DATA_LENGTH := 2

  /** Position every servo is calibrated to, and the tolerance of the
      check that follows. */
  const MIDDLE := 2048
  const MIDDLE_TOLERANCE := 10
  /** Value written to the torque-enable register by the STS middle
      calibration. */
  const MIDDLE_COMMAND := 128
  const MAX_SERVO_ID := 253
  /** The operating mode `write_torque` needs. */
  const TORQUE_MODE := 2

  predicate IsSupportedType(servoType: string) {
    servoType == "sts" || servoType == "hls"
  }

  /** The packet handler `connect` builds for a servo type. */
  function ProtocolOf(servoType: string): Protocol {
    if servoType == "hls" then Hls else SmsSts
  }

  /** What `__init__` settles before the object exists. */
  datatype Config = Config(servoType: string, port: string)

  /** `__init__`'s checks in its own order: the servo type is lower-cased,
      the port is resolved (auto-detection may raise PortNotFoundError),
      and only then is the type checked. */
  function Configure(servoType: string, port: Option<string>, system: string, devices: seq<string>): (r: Result<Config>)
    ensures r.Ok? <==> PortDiscovery.ResolvePort(port, system, devices).Ok? && IsSupportedType(Lower(servoType))
    ensures r.Ok? ==> r.value == Config(Lower(servoType), PortDiscovery.ResolvePort(port, system, devices).value)
    ensures PortDiscovery.ResolvePort(port, system, devices).Err? ==> r == Err(PortNotFoundError)
    ensures PortDiscovery.ResolvePort(port, system, devices).Ok? && !IsSupportedType(Lower(servoType)) ==>
              r == Err(ValueError(UnsupportedServoType(Lower(servoType))))
  {
    var lowered := Lower(servoType);
    var resolved := PortDiscovery.ResolvePort(port, system, devices);
    if resolved.Err? then Err(resolved.error)
    else if !IsSupportedType(lowered) then Err(ValueError(UnsupportedServoType(lowered)))
    else Ok(Config(lowered, resolved.value))
  }

  /** The type check ignores case: "HLS", "Hls" and "hls" configure the
      same controller. */
  lemma {:induction false} ConfigureIgnoresCase(servoType: string, port: Option<string>, system: string, devices: seq<string>)
    ensures Configure(servoType, port, system, devices) == Configure(Lower(servoType), port, system, devices)
  {
    LowerIdempotent(servoType);
  }

  /** A port given explicitly is used as is: auto-detection is not
      consulted, so a missing adapter cannot make construction fail. */
  lemma GivenPortSkipsDetection(servoType: string, port: string, system: string, devices: seq<string>)
    requires port != "" && IsSupportedType(Lower(servoType))
    ensures Configure(servoType, Some(port), system, devices) == Ok(Config(Lower(servoType), port))
  {
  }

  /** The exchanges of `disable_all_servos` on a connected controller: a
      torque-disable write for every configured servo, in order. */
  predicate DisablesAll(ids: seq<int>, t: seq<Exchange>) {
    |t| == |ids| && forall j :: 0 <= j < |ids| ==> t[j].request == Write1Byte(ids[j], TORQUE_ENABLE_ADDR, 0)
  }

  /** The position read of `read_positions` and its outcome. */
  function ReadOutcome(ids: seq<int>, t: seq<Exchange>): Result<map<int, int>>
    requires IsGroupRead(ids, PRESENT_POSITION_ADDR, POSITION_DATA_LENGTH, t)
  {
    GroupReadOutcome(ids, PRESENT_POSITION_ADDR, POSITION_DATA_LENGTH, t)
  }

  /** Every read-back position is within MIDDLE_TOLERANCE of MIDDLE. */
  predicate NearMiddle(positions: map<int, int>) {
    forall k :: k in positions ==> -MIDDLE_TOLERANCE <= positions[k] - MIDDLE <= MIDDLE_TOLERANCE
  }

  /** A set of motor ids with no member is the empty set. */
  lemma EmptyIfNoMember(s: set<int>)
    ensures (forall k :: k !in s) ==> s == {}
  {
    if forall k :: k !in s {
      assert forall k :: k in s <==> k in {};
    }
  }

  /** A non-empty set of motor ids has a member. */
  lemma HasElement(s: set<int>)
    requires s != {}
    ensures exists k :: k in s
  {
    EmptyIfNoMember(s);
  }

  /** The verification loop of `set_middle_position`: `all_good` stays
      true until a servo is off by more than the tolerance. The source
      visits the motors in sorted order for printing; the verdict does
      not depend on the order. */
  method CheckMiddle(positions: map<int, int>) returns (allGood: bool)
    ensures allGood <==> NearMiddle(positions)
  {
    allGood := true;
    var remaining := positions.Keys;
    while remaining != {}
      invariant remaining <= positions.Keys
      invariant allGood <==> forall k :: k in positions && k !in remaining ==>
                               -MIDDLE_TOLERANCE <= positions[k] - MIDDLE <= MIDDLE_TOLERANCE
      decreases remaining
    {
      HasElement(remaining);
      var k :| k in remaining;
      var diff := positions[k] - MIDDLE;
      if diff > MIDDLE_TOLERANCE || -diff > MIDDLE_TOLERANCE {
        allGood := false;
      }
      remaining := remaining - {k};
    }
  }

  /** The HLS calibration: one reOfsCal(id, 2048) per motor, in order. */
  predicate Calibrates(ids: seq<int>, t: seq<Exchange>) {
    |t| == |ids| && forall j :: 0 <= j < |ids| ==> t[j].request == ReOfsCal(ids[j], MIDDLE)
  }

  /** Every calibration answered with success and a clear error byte. */
  predicate CalibrationOk(t: seq<Exchange>) {
    forall j :: 0 <= j < |t| ==> t[j].reply.comm == COMM_SUCCESS && t[j].reply.error == 0
  }

  /** The STS middle command queued in a group sync write, motor by motor
      in order (possibly stopped early). */
  predicate QueuesMiddle(ids: seq<int>, t: seq<Exchange>) {
    |t| <= |ids| && forall j :: 0 <= j < |t| ==> t[j].request == GroupWriteAdd(ids[j], [MIDDLE_COMMAND])
  }

  predicate AllAccepted(t: seq<Exchange>) {
    forall j :: 0 <= j < |t| ==> t[j].reply.ok
  }

  /** The read-back that ends `set_middle_position`, and its verdict. */
  predicate Verifies(ids: seq<int>, t: seq<Exchange>, r: Result<bool>) {
    IsGroupRead(ids, PRESENT_POSITION_ADDR, POSITION_DATA_LENGTH, t)
    && var read := ReadOutcome(ids, t);
       r == if read.Ok? then Ok(NearMiddle(read.value)) else Err(read.error)
  }

  /** The read-back check passes vacuously: when the transaction went
      through but no servo's data was available, the reading is empty and
      `set_middle_position` answers True. */
  lemma SilentReadBackPasses(ids: seq<int>, t: seq<Exchange>)
    requires IsGroupRead(ids, PRESENT_POSITION_ADDR, POSITION_DATA_LENGTH, t) && TransactionOk(ids, t)
    requires forall j :: |ids| < j < |t| - 1 ==> !t[j].reply.ok
    ensures ReadOutcome(ids, t) == Ok(map[])
    ensures Verifies(ids, t, Ok(true))
  {
    PositionsRequested(ids, PRESENT_POSITION_ADDR, POSITION_DATA_LENGTH, t);
    var m := Positions(ids, PRESENT_POSITION_ADDR, POSITION_DATA_LENGTH, t);
    forall k
      ensures k !in m.Keys
    {
      assert !exists i :: 0 <= i < |ids| && ids[i] == k && t[|ids| + 1 + i].reply.ok;
    }
    EmptyIfNoMember(m.Keys);
    assert m == map[];
  }

  /** The STS sync write after every motor was queued: the transaction,
      then (only when it went through) clearParam and the read-back. */
  predicate SyncWriteThenVerifies(ids: seq<int>, t: seq<Exchange>, r: Result<bool>) {
    |t| >= 1 && t[0].request == GroupWriteTx(TORQUE_ENABLE_ADDR, 1)
    && if t[0].reply.comm != COMM_SUCCESS then
         |t| == 1 && r == Err(CommunicationError(SyncWriteFailed))
       else
         |t| >= 2 && t[1].request == GroupWriteClear && Verifies(ids, t[2..], r)
  }

  /** The HLS branch of `set_middle_position`: one calibration per motor;
      when all succeeded the read-back decides, otherwise
      CommunicationError and nothing more is sent. */
  predicate HlsMiddleSteps(ids: seq<int>, t: seq<Exchange>, r: Result<bool>) {
    |t| >= |ids| && Calibrates(ids, t[..|ids|])
    && if CalibrationOk(t[..|ids|]) then Verifies(ids, t[|ids|..], r)
       else |t| == |ids| && r == Err(CommunicationError(CalibrationFailed))
  }

  /** The STS branch of `set_middle_position`: the middle command is
      queued motor by motor, stopping with CommunicationError at the first
      motor the group refuses; once all are queued the sync write and the
      read-back follow. */
  predicate StsMiddleSteps(ids: seq<int>, t: seq<Exchange>, r: Result<bool>) {
    (1 <= |t| <= |ids| && QueuesMiddle(ids, t) && AllAccepted(t[..|t| - 1]) && !t[|t| - 1].reply.ok
     && r == Err(CommunicationError(SyncWriteAddFailed(ids[|t| - 1]))))
    || (|t| > |ids| && QueuesMiddle(ids, t[..|ids|]) && AllAccepted(t[..|ids|])
        && SyncWriteThenVerifies(ids, t[|ids|..], r))
  }

  /** The EEPROM steps of `set_operating_mode` for a valid mode: unlock;
      when that worked, write the mode and lock again (after a failed
      write too). The answer is whether unlock and write both worked. */
  predicate ModeSteps(id: int, mode: int, t: seq<Exchange>, ok: bool) {
    |t| >= 1 && t[0].request == UnlockEeprom(id)
    && if t[0].reply.comm != COMM_SUCCESS then
         |t| == 1 && !ok
       else
         |t| == 3 && t[1].request == Write1Byte(id, MODE_ADDR, mode) && t[2].request == LockEeprom(id)
         && (ok <==> t[1].reply.comm == COMM_SUCCESS)
  }

  /** `set_operating_mode` leaves the EEPROM locked whenever it unlocked
      it, and reports success exactly when the mode was written. */
  lemma ModeStepsRelock(id: int, mode: int, t: seq<Exchange>, ok: bool)
    requires ModeSteps(id, mode, t, ok)
    ensures t[0].reply.comm == COMM_SUCCESS ==> t[|t| - 1].request == LockEeprom(id)
    ensures ok <==> exists k :: 0 <= k < |t| && t[k].request == Write1Byte(id, MODE_ADDR, mode) && t[k].reply.comm == COMM_SUCCESS
  {
    if ok {
      assert t[1].request == Write1Byte(id, MODE_ADDR, mode);
    }
  }

  /** `input(...).strip().lower() == 'yes'`. */
  predicate Confirmed(answer: string) {
    Lower(Strip(answer)) == "yes"
  }

  /** Any capitalisation of "yes", with any whitespace around it, confirms. */
  lemma ConfirmedPadded(a: string, w: string, b: string)
    requires AllSpace(a) && AllSpace(b) && Lower(w) == "yes"
    ensures Confirmed(a + w + b)
  {
    assert LowerChar(w[0]) == 'y' && LowerChar(w[2]) == 's';
    assert Trimmed(w);
    StripPadded(a, w, b);
  }

  /** The EEPROM steps of `set_motor_id` once confirmed: ping the servo,
      unlock, write the new ID, lock. A failure after the ping raises
      CommunicationError after an attempted re-lock; a failed ID write is
      followed by two lock attempts (the one before raising and the one
      in the handler). A failed final lock is only a warning. */
  predicate IdChangeSteps(current: int, newId: int, t: seq<Exchange>, r: Result<bool>) {
    |t| >= 2 && t[0].request == Ping(current)
    && if t[0].reply.comm != COMM_SUCCESS then
         Requests(t) == [Ping(current), LockEeprom(current)]
         && r == Err(CommunicationError(PingFailed(current)))
       else if t[1].reply.comm != COMM_SUCCESS then
         Requests(t) == [Ping(current), UnlockEeprom(current), LockEeprom(current)]
         && r == Err(CommunicationError(UnlockFailed))
       else if |t| >= 3 && t[2].reply.comm != COMM_SUCCESS then
         Requests(t) == [Ping(current), UnlockEeprom(current), Write1Byte(current, ID_ADDR, newId),
                         LockEeprom(current), LockEeprom(current)]
         && r == Err(CommunicationError(WriteIdFailed))
       else
         Requests(t) == [Ping(current), UnlockEeprom(current), Write1Byte(current, ID_ADDR, newId),
                         LockEeprom(current)]
         && r == Ok(true)
  }

  /** Whatever fails after the confirmation, the last thing sent is a lock
      of the servo's EEPROM; and the change is reported exactly when ping,
      unlock and ID write all went through. */
  lemma IdChangeRelocks(current: int, newId: int, t: seq<Exchange>, r: Result<bool>)
    requires IdChangeSteps(current, newId, t, r)
    ensures t[|t| - 1].request == LockEeprom(current)
    ensures r == Ok(true) <==> (|t| >= 3 && t[0].reply.comm == COMM_SUCCESS && t[1].reply.comm == COMM_SUCCESS
                                && t[2].reply.comm == COMM_SUCCESS)
    ensures r.Err? ==> r.error.CommunicationError?
  {
    assert Requests(t)[|t| - 1] == t[|t| - 1].request;
    if |t| >= 3 {
      assert Requests(t)[2] == t[2].request;
    }
  }

  /** The trace of an ID change whose ping went unanswered. */
  lemma PingFailedTrace(current: int, newId: int, ping: Exchange, lock: Exchange)
    requires ping.request == Ping(current) && ping.reply.comm != COMM_SUCCESS && lock.request == LockEeprom(current)
    ensures IdChangeSteps(current, newId, [ping, lock], Err(CommunicationError(PingFailed(current))))
  {
    assert Requests([ping, lock]) == [Ping(current), LockEeprom(current)];
  }

  /** The trace of an ID change whose unlock failed. */
  lemma UnlockFailedTrace(current: int, newId: int, ping: Exchange, unlock: Exchange, lock: Exchange)
    requires ping.request == Ping(current) && ping.reply.comm == COMM_SUCCESS
    requires unlock.request == UnlockEeprom(current) && unlock.reply.comm != COMM_SUCCESS
    requires lock.request == LockEeprom(current)
    ensures IdChangeSteps(current, newId, [ping, unlock, lock], Err(CommunicationError(UnlockFailed)))
  {
    assert Requests([ping, unlock, lock]) == [Ping(current), UnlockEeprom(current), LockEeprom(current)];
  }

  /** The trace of an ID change whose ID write failed: two locks. */
  lemma WriteFailedTrace(current: int, newId: int, ping: Exchange, unlock: Exchange, write: Exchange,
                         lock: Exchange, relock: Exchange)
    requires ping.request == Ping(current) && ping.reply.comm == COMM_SUCCESS
    requires unlock.request == UnlockEeprom(current) && unlock.reply.comm == COMM_SUCCESS
    requires write.request == Write1Byte(current, ID_ADDR, newId) && write.reply.comm != COMM_SUCCESS
    requires lock.request == LockEeprom(current) && relock.request == LockEeprom(current)
    ensures IdChangeSteps(current, newId, [ping, unlock, write, lock, relock], Err(CommunicationError(WriteIdFailed)))
  {
    assert Requests([ping, unlock, write, lock, relock])
        == [Ping(current), UnlockEeprom(current), Write1Byte(current, ID_ADDR, newId), LockEeprom(current), LockEeprom(current)];
  }

  /** The trace of a completed ID change. */
  lemma IdChangedTrace(current: int, newId: int, ping: Exchange, unlock: Exchange, write: Exchange, lock: Exchange)
    requires ping.request == Ping(current) && ping.reply.comm == COMM_SUCCESS
    requires unlock.request == UnlockEeprom(current) && unlock.reply.comm == COMM_SUCCESS
    requires write.request == Write1Byte(current, ID_ADDR, newId) && write.reply.comm == COMM_SUCCESS
    requires lock.request == LockEeprom(current)
    ensures IdChangeSteps(current, newId, [ping, unlock, write, lock], Ok(true))
  {
    assert Requests([ping, unlock, write, lock])
        == [Ping(current), UnlockEeprom(current), Write1Byte(current, ID_ADDR, newId), LockEeprom(current)];
  }

  /** A request of the kinds the torque path sends to one servo. */
  predicate TorquePathRequest(req: Request) {
    req.Read1Byte? || req.Write1Byte? || req.Write2Byte? || req.UnlockEeprom? || req.LockEeprom?
  }

  /** Every exchange of `t` is a torque-path request to servo `id`. */
  predicate AllAddress(t: seq<Exchange>, id: int) {
    forall k :: 0 <= k < |t| ==> TorquePathRequest(t[k].request) && t[k].request.id == id
  }

  /** Every exchange of `t` is a torque-path request to one of `ids`. */
  predicate AllAddressIn(t: seq<Exchange>, ids: set<int>) {
    forall k :: 0 <= k < |t| ==> TorquePathRequest(t[k].request) && t[k].request.id in ids
  }

  /** Servo `id` accepted the goal-torque word `word`. */
  predicate WroteTorque(t: seq<Exchange>, id: int, word: int) {
    exists k :: 0 <= k < |t| && t[k].request == Write2Byte(id, GOAL_TORQUE_ADDR, word) && t[k].reply.comm == COMM_SUCCESS
  }

  /** The mode check of `write_torque` on servo `id`: one mode read;
      a failed read stops the motor, torque mode lets it go on, and any
      other mode is switched by `set_operating_mode`. No goal torque is
      written. */
  predicate ModeCheck(id: int, t: seq<Exchange>, ready: bool) {
    |t| >= 1 && t[0].request == Read1Byte(id, MODE_ADDR)
    && AllAddress(t, id)
    && (forall k :: 0 <= k < |t| ==> !t[k].request.Write2Byte?)
    && (t[0].reply.comm != COMM_SUCCESS ==> |t| == 1 && !ready)
    && (t[0].reply.comm == COMM_SUCCESS && t[0].reply.value == TORQUE_MODE ==> |t| == 1 && ready)
    && (t[0].reply.comm == COMM_SUCCESS && t[0].reply.value != TORQUE_MODE ==>
          ModeSteps(id, TORQUE_MODE, t[1..], ready))
  }

  /** A mode check that ends with its read. */
  lemma ModeReadTrace(id: int, read: Exchange)
    requires read.request == Read1Byte(id, MODE_ADDR)
    requires read.reply.comm != COMM_SUCCESS || read.reply.value == TORQUE_MODE
    ensures ModeCheck(id, [read], read.reply.comm == COMM_SUCCESS)
  {
  }

  /** A mode check that switches the mode. */
  lemma ModeSwitchTrace(id: int, read: Exchange, rest: seq<Exchange>, ready: bool)
    requires read.request == Read1Byte(id, MODE_ADDR)
    requires read.reply.comm == COMM_SUCCESS && read.reply.value != TORQUE_MODE
    requires ModeSteps(id, TORQUE_MODE, rest, ready)
    ensures ModeCheck(id, [read] + rest, ready)
  {
    var t := [read] + rest;
    assert t[1..] == rest;
    forall k | 0 <= k < |t| ensures TorquePathRequest(t[k].request) && t[k].request.id == id && !t[k].request.Write2Byte? {
      if k > 0 {
        assert t[k] == rest[k - 1];
      }
    }
  }

  /** The requests of the rest of a motor's turn in `write_torque`, given
      the reply to its torque-enable read: that read, a write of 1 to the
      torque-enable register exactly when the read succeeded with another
      value, then the goal-torque word. */
  function EnableRequests(id: int, word: int, enabled: Reply): seq<Request> {
    [Read1Byte(id, TORQUE_ENABLE_ADDR)]
    + (if enabled.comm == COMM_SUCCESS && enabled.value != 1 then [Write1Byte(id, TORQUE_ENABLE_ADDR, 1)] else [])
    + [Write2Byte(id, GOAL_TORQUE_ADDR, word)]
  }

  /** The rest of a motor's turn in `write_torque`: exactly the requests
      of `EnableRequests` for the reply its enable read got; `ok` says the
      servo accepted the goal-torque word. */
  predicate EnableWrite(id: int, word: int, t: seq<Exchange>, ok: bool) {
    |t| >= 1 && Requests(t) == EnableRequests(id, word, t[0].reply)
    && (ok <==> t[|t| - 1].reply.comm == COMM_SUCCESS)
  }

  /** The enable-and-write steps talk to servo `id` only, their one
      two-byte write is the goal word, last, and `ok` says whether the
      servo accepted it. */
  lemma EnableWriteShape(id: int, word: int, t: seq<Exchange>, ok: bool)
    requires EnableWrite(id, word, t, ok)
    ensures |t| >= 2 && AllAddress(t, id)
    ensures forall k :: 0 <= k < |t| - 1 ==> !t[k].request.Write2Byte?
    ensures t[|t| - 1].request == Write2Byte(id, GOAL_TORQUE_ADDR, word)
    ensures ok <==> WroteTorque(t, id, word)
  {
    var rs := EnableRequests(id, word, t[0].reply);
    forall k | 0 <= k < |t|
      ensures t[k].request == rs[k]
    {
      assert Requests(t)[k] == t[k].request;
    }
    if WroteTorque(t, id, word) {
      var k :| 0 <= k < |t| && t[k].request == Write2Byte(id, GOAL_TORQUE_ADDR, word) && t[k].reply.comm == COMM_SUCCESS;
      assert k == |t| - 1;
    }
  }

  /** One motor's turn in `write_torque`, cut at `i` where its mode check
      ends: a motor the check stopped has no more traffic and answers
      false; a ready motor goes on with the enable-and-write steps, whose
      answer is the turn's. */
  predicate TurnSplit(id: int, word: int, t: seq<Exchange>, i: int, ok: bool)
    requires 0 < i <= |t|
  {
    (ModeCheck(id, t[..i], false) && i == |t| && !ok)
    || (ModeCheck(id, t[..i], true) && EnableWrite(id, word, t[i..], ok))
  }

  /** One motor's turn in `write_torque`: the mode check, then, when the
      motor is ready, the enable-and-write steps. `ok` says the servo
      accepted the goal-torque word. */
  predicate TorqueTurn(id: int, word: int, t: seq<Exchange>, ok: bool) {
    |t| >= 1 && CheckLength(t) <= |t| && TurnSplit(id, word, t, CheckLength(t), ok)
  }

  /** Where the mode check of a turn ends: after the mode read when it
      failed or found torque mode; otherwise after the unlock of
      `set_operating_mode` when that failed, and after its mode write and
      lock when it went through. */
  function CheckLength(t: seq<Exchange>): nat
    requires |t| >= 1
  {
    if t[0].reply.comm != COMM_SUCCESS || t[0].reply.value == TORQUE_MODE then 1
    else if |t| < 2 || t[1].reply.comm != COMM_SUCCESS then 2
    else 4
  }

  /** A turn talks to its own servo only, and its answer says whether
      that servo accepted the goal-torque word. */
  lemma TurnShape(id: int, word: int, t: seq<Exchange>, ok: bool)
    requires TorqueTurn(id, word, t, ok)
    ensures AllAddress(t, id) && (ok <==> WroteTorque(t, id, word))
  {
    var i := CheckLength(t);
    SplitFacts(id, word, t, i, ok);
    var check, rest := t[..i], t[i..];
    assert t == check + rest;
    if i < |t| {
      EnableWriteShape(id, word, rest, ok);
      WroteTorqueAppend(check, rest, id, word);
      AllAddressJoin(check, rest, id);
    }
  }

  /** The two halves of a turn cut where its mode check ends. */
  lemma SplitFacts(id: int, word: int, t: seq<Exchange>, i: int, ok: bool)
    requires 0 < i <= |t| && TurnSplit(id, word, t, i, ok)
    ensures AllAddress(t[..i], id) && !WroteTorque(t[..i], id, word)
    ensures i < |t| ==> EnableWrite(id, word, t[i..], ok)
    ensures i == |t| ==> !ok
  {
    if ModeCheck(id, t[..i], false) && i == |t| && !ok {
      ModeCheckWritesNothing(id, t[..i], false, word);
    } else {
      ModeCheckWritesNothing(id, t[..i], true, word);
    }
  }

  /** A mode check talks to its servo only and writes no goal torque. */
  lemma ModeCheckWritesNothing(id: int, t: seq<Exchange>, ready: bool, word: int)
    requires ModeCheck(id, t, ready)
    ensures AllAddress(t, id) && !WroteTorque(t, id, word)
  {
  }

  /** Two stretches that talk to servo `id` only, joined. */
  lemma AllAddressJoin(a: seq<Exchange>, b: seq<Exchange>, id: int)
    requires AllAddress(a, id) && AllAddress(b, id)
    ensures AllAddress(a + b, id)
  {
    forall k | 0 <= k < |a + b| ensures TorquePathRequest((a + b)[k].request) && (a + b)[k].request.id == id {
      if k < |a| {
        assert (a + b)[k] == a[k];
      } else {
        assert (a + b)[k] == b[k - |a|];
      }
    }
  }

  /** What a turn does after its mode read: a failed read is the whole
      turn and answers false; a read of torque mode goes straight on to
      the enable-and-write steps; any other mode is switched first, and a
      failed switch is the end of the turn and answers false. */
  lemma TurnAfterModeRead(id: int, word: int, t: seq<Exchange>, ok: bool)
    requires TorqueTurn(id, word, t, ok)
    ensures |t| >= 1 && t[0].request == Read1Byte(id, MODE_ADDR)
    ensures t[0].reply.comm != COMM_SUCCESS ==> |t| == 1 && !ok
    ensures t[0].reply.comm == COMM_SUCCESS && t[0].reply.value == TORQUE_MODE ==> EnableWrite(id, word, t[1..], ok)
    ensures t[0].reply.comm == COMM_SUCCESS && t[0].reply.value != TORQUE_MODE ==>
              var i := CheckLength(t);
              1 < i <= |t| && ModeSteps(id, TORQUE_MODE, t[1..i], i < |t|)
              && (i < |t| ==> EnableWrite(id, word, t[i..], ok)) && (i == |t| ==> !ok)
  {
    var i := CheckLength(t);
    var check := t[..i];
    assert check[0] == t[0];
    if t[0].reply.comm == COMM_SUCCESS && t[0].reply.value != TORQUE_MODE {
      assert check[1..] == t[1..i];
      if i < |t| {
        EnableWriteShape(id, word, t[i..], ok);
      }
    }
  }

  /** A turn whose mode check did not let the motor go on writes nothing. */
  lemma TurnStoppedTrace(id: int, word: int, t: seq<Exchange>)
    requires ModeCheck(id, t, false)
    ensures TorqueTurn(id, word, t, false)
  {
    assert t[..|t|] == t;
  }

  /** A turn whose mode check let the motor go on. */
  lemma TurnWrittenTrace(id: int, word: int, check: seq<Exchange>, rest: seq<Exchange>, ok: bool)
    requires ModeCheck(id, check, true) && EnableWrite(id, word, rest, ok)
    ensures TorqueTurn(id, word, check + rest, ok)
  {
    var t := check + rest;
    assert t[..|check|] == check && t[|check|..] == rest;
  }

  /** The answers of `write_torque` after the first `i` motors of
      `torques`: one per motor, true exactly when the servo accepted its
      word, with traffic to those motors only. */
  predicate TorqueResults(torques: seq<(int, real)>, i: int, results: map<int, bool>, t: seq<Exchange>)
    requires 0 <= i <= |torques|
  {
    results.Keys == (set j | 0 <= j < i :: torques[j].0)
    && (forall j :: 0 <= j < i ==> (results[torques[j].0] <==> WroteTorque(t, torques[j].0, TorqueWord(torques[j].1))))
    && AllAddressIn(t, results.Keys)
  }

  /** The traffic of `write_torque` after the first `i` motors of
      `torques`: one turn per motor, in the order of `torques`, the j-th
      answering `oks[j]`. */
  predicate TorqueTurns(torques: seq<(int, real)>, i: int, t: seq<Exchange>, turns: seq<seq<Exchange>>, oks: seq<bool>)
    requires 0 <= i <= |torques|
  {
    |turns| == i && |oks| == i && t == Concat(turns)
    && forall j :: 0 <= j < i ==> TorqueTurn(torques[j].0, TorqueWord(torques[j].1), turns[j], oks[j])
  }

  /** The answer of each of the first `i` motors of `torques` is its own
      turn's answer. */
  predicate Answers(torques: seq<(int, real)>, i: int, results: map<int, bool>, oks: seq<bool>)
    requires 0 <= i <= |torques|
  {
    |oks| == i && forall j :: 0 <= j < i ==> torques[j].0 in results && results[torques[j].0] == oks[j]
  }

  /** Every motor of `torques` takes a turn that starts with its own
      mode read, so there is at least one exchange per motor. */
  lemma TurnsCarryTraffic(torques: seq<(int, real)>, i: int, t: seq<Exchange>, turns: seq<seq<Exchange>>, oks: seq<bool>)
    requires 0 <= i <= |torques| && TorqueTurns(torques, i, t, turns, oks)
    ensures forall j :: 0 <= j < i ==> |turns[j]| >= 1 && turns[j][0].request == Read1Byte(torques[j].0, MODE_ADDR)
    ensures |t| >= i
  {
    forall j | 0 <= j < i
      ensures |turns[j]| >= 1 && turns[j][0].request == Read1Byte(torques[j].0, MODE_ADDR)
    {
      TurnAfterModeRead(torques[j].0, TorqueWord(torques[j].1), turns[j], oks[j]);
    }
    ConcatAtLeast(turns);
  }

  /** One more motor's turn keeps the answers right. */
  lemma TorqueResultsStep(torques: seq<(int, real)>, i: int, results: map<int, bool>, t: seq<Exchange>,
                          seg: seq<Exchange>, ok: bool)
    requires DistinctIds(torques) && 0 <= i < |torques|
    requires TorqueResults(torques, i, results, t)
    requires AllAddress(seg, torques[i].0) && (ok <==> WroteTorque(seg, torques[i].0, TorqueWord(torques[i].1)))
    ensures TorqueResults(torques, i + 1, results[torques[i].0 := ok], t + seg)
  {
    var id := torques[i].0;
    FirstIdsStep(torques, i);
    assert id !in results.Keys;
    TorqueTurnsSeparate(t, results.Keys, seg, id);
    VerdictsStep(torques, i, results, t, seg, ok);
  }

  /** One more motor's turn is appended to the turns. */
  lemma TurnsStep(torques: seq<(int, real)>, i: int, t: seq<Exchange>, turns: seq<seq<Exchange>>, oks: seq<bool>,
                  seg: seq<Exchange>, ok: bool)
    requires 0 <= i < |torques|
    requires TorqueTurns(torques, i, t, turns, oks)
    requires TorqueTurn(torques[i].0, TorqueWord(torques[i].1), seg, ok)
    ensures TorqueTurns(torques, i + 1, t + seg, turns + [seg], oks + [ok])
  {
    ConcatAppend(turns, seg);
    assert forall j :: 0 <= j < i ==> (turns + [seg])[j] == turns[j] && (oks + [ok])[j] == oks[j];
  }

  /** One more motor's answer is its own turn's answer, and the earlier
      motors keep theirs. */
  lemma AnswersStep(torques: seq<(int, real)>, i: int, results: map<int, bool>, oks: seq<bool>, ok: bool)
    requires DistinctIds(torques) && 0 <= i < |torques|
    requires Answers(torques, i, results, oks)
    ensures Answers(torques, i + 1, results[torques[i].0 := ok], oks + [ok])
  {
    forall j | 0 <= j < i + 1
      ensures torques[j].0 in results[torques[i].0 := ok] && results[torques[i].0 := ok][torques[j].0] == (oks + [ok])[j]
    {
      if j < i {
        assert torques[j].0 != torques[i].0;
      }
    }
  }

  /** After one more motor's turn, every motor's answer still says
      whether its own word was accepted. */
  lemma VerdictsStep(torques: seq<(int, real)>, i: int, results: map<int, bool>, t: seq<Exchange>,
                     seg: seq<Exchange>, ok: bool)
    requires DistinctIds(torques) && 0 <= i < |torques|
    requires results.Keys == (set j | 0 <= j < i :: torques[j].0)
    requires forall j :: 0 <= j < i ==> (results[torques[j].0] <==> WroteTorque(t, torques[j].0, TorqueWord(torques[j].1)))
    requires forall x, w :: x != torques[i].0 ==> (WroteTorque(t + seg, x, w) <==> WroteTorque(t, x, w))
    requires forall w :: WroteTorque(t + seg, torques[i].0, w) <==> WroteTorque(seg, torques[i].0, w)
    requires ok <==> WroteTorque(seg, torques[i].0, TorqueWord(torques[i].1))
    ensures forall j :: 0 <= j < i + 1 ==>
              (results[torques[i].0 := ok][torques[j].0] <==> WroteTorque(t + seg, torques[j].0, TorqueWord(torques[j].1)))
  {
    var id := torques[i].0;
    var next := results[id := ok];
    forall j | 0 <= j < i + 1
      ensures next[torques[j].0] <==> WroteTorque(t + seg, torques[j].0, TorqueWord(torques[j].1))
    {
      if j < i {
        assert torques[j].0 != id;
      }
    }
  }

  /** The motors among the first `i + 1` of `torques`. */
  lemma FirstIdsStep(torques: seq<(int, real)>, i: int)
    requires 0 <= i < |torques|
    ensures (set j | 0 <= j < i + 1 :: torques[j].0) == (set j | 0 <= j < i :: torques[j].0) + {torques[i].0}
  {
  }

  /** A goal-torque word was accepted in two joined traces exactly when
      it was accepted in one of them. */
  lemma WroteTorqueAppend(a: seq<Exchange>, b: seq<Exchange>, id: int, word: int)
    ensures WroteTorque(a + b, id, word) <==> WroteTorque(a, id, word) || WroteTorque(b, id, word)
  {
    if WroteTorque(a + b, id, word) {
      var k :| 0 <= k < |a + b| && (a + b)[k].request == Write2Byte(id, GOAL_TORQUE_ADDR, word) && (a + b)[k].reply.comm == COMM_SUCCESS;
      if k >= |a| {
        assert b[k - |a|] == (a + b)[k];
      }
    }
    if WroteTorque(b, id, word) {
      var k :| 0 <= k < |b| && b[k].request == Write2Byte(id, GOAL_TORQUE_ADDR, word) && b[k].reply.comm == COMM_SUCCESS;
      assert (a + b)[|a| + k] == b[k];
    }
    if WroteTorque(a, id, word) {
      var k :| 0 <= k < |a| && a[k].request == Write2Byte(id, GOAL_TORQUE_ADDR, word) && a[k].reply.comm == COMM_SUCCESS;
      assert (a + b)[k] == a[k];
    }
  }

  /** A turn that talks to servo `id` only, after traffic that never
      reached `id`, leaves the verdicts of every other servo alone, and
      decides the verdict of `id` by itself. */
  lemma TorqueTurnsSeparate(t: seq<Exchange>, ids: set<int>, seg: seq<Exchange>, id: int)
    requires AllAddressIn(t, ids) && id !in ids && AllAddress(seg, id)
    ensures forall x, w :: x != id ==> (WroteTorque(t + seg, x, w) <==> WroteTorque(t, x, w))
    ensures forall w :: WroteTorque(t + seg, id, w) <==> WroteTorque(seg, id, w)
    ensures AllAddressIn(t + seg, ids + {id})
  {
    forall x, w | x != id ensures WroteTorque(t + seg, x, w) <==> WroteTorque(t, x, w) {
      WroteTorqueAppend(t, seg, x, w);
    }
    forall w ensures WroteTorque(t + seg, id, w) <==> WroteTorque(seg, id, w) {
      WroteTorqueAppend(t, seg, id, w);
    }
    forall k | 0 <= k < |t + seg|
      ensures TorquePathRequest((t + seg)[k].request) && (t + seg)[k].request.id in ids + {id}
    {
      if k < |t| {
        assert (t + seg)[k] == t[k];
      } else {
        assert (t + seg)[k] == seg[k - |t|];
      }
    }
  }

  /** The goal-torque word for a normalised torque, as the integer sent. */
  function TorqueWord(t: real): int {
    Torque.Encode(t) as int
  }

  /** Distinct keys, as in the dictionary `write_torque` receives. */
  predicate DistinctIds(torques: seq<(int, real)>) {
    forall i, j :: 0 <= i < j < |torques| ==> torques[i].0 != torques[j].0
  }

  /** The HLS calibration loop: one reOfsCal per motor, in order;
      `allSuccess` is false as soon as one of them failed. */
  method CalibrateAll(bus: Bus, ids: seq<int>) returns (allSuccess: bool)
    modifies bus
    ensures Extends(old(bus.history), bus.history)
    ensures Calibrates(ids, Added(old(bus.history), bus.history))
    ensures allSuccess <==> CalibrationOk(Added(old(bus.history), bus.history))
  {
    allSuccess := true;
    ghost var t: seq<Exchange> := [];
    for j := 0 to |ids|
      invariant bus.history == old(bus.history) + t
      invariant |t| == j
      invariant forall k :: 0 <= k < j ==> t[k].request == ReOfsCal(ids[k], MIDDLE)
      invariant allSuccess <==> CalibrationOk(t)
    {
      var rep := bus.Call(ReOfsCal(ids[j], MIDDLE));
      if rep.comm != COMM_SUCCESS {
        allSuccess := false;
      } else if rep.error != 0 {
        allSuccess := false;
      }
      t := t + [Exchange(ReOfsCal(ids[j], MIDDLE), rep)];
    }
  }

  /** The STS addParam loop: queues the middle command for every motor and
      stops at the first motor the group refuses, whose index it returns. */
  method QueueMiddleCommand(bus: Bus, ids: seq<int>) returns (refused: Option<nat>)
    modifies bus
    ensures Extends(old(bus.history), bus.history)
    ensures var t := Added(old(bus.history), bus.history);
              QueuesMiddle(ids, t)
              && (refused.None? ==> |t| == |ids| && AllAccepted(t))
              && (refused.Some? ==> refused.value < |ids| && |t| == refused.value + 1
                                    && AllAccepted(t[..refused.value]) && !t[refused.value].reply.ok)
  {
    ghost var t: seq<Exchange> := [];
    for j := 0 to |ids|
      invariant bus.history == old(bus.history) + t
      invariant |t| == j
      invariant QueuesMiddle(ids, t) && AllAccepted(t)
    {
      var added := bus.Call(GroupWriteAdd(ids[j], [MIDDLE_COMMAND]));
      ghost var t0 := t;
      t := t + [Exchange(GroupWriteAdd(ids[j], [MIDDLE_COMMAND]), added)];
      if !added.ok {
        assert t[..j] == t0;
        return Some(j);
      }
    }
    return None;
  }

  class ServoController {
    const servoIds: seq<int>
    const servoType: string
    const port: string
    const baudrate: int
    /** The serial line this controller talks over. */
    const bus: Bus

    /** `port_handler`: the port a handler was created for, if any. */
    var portHandler: Option<string>
    /** `packet_handler`: the protocol of the handler, if any. */
    var packetHandler: Option<Protocol>
    /** `_connected`. */
    var connected: bool

    /** The type was checked at construction, and an open connection has
        both handlers. */
    predicate Valid()
      reads this
    {
      IsSupportedType(servoType)
      && (connected ==> portHandler == Some(port) && packetHandler == Some(ProtocolOf(servoType)))
    }

    /** The object `__init__` builds from a checked configuration: no
        handlers, not connected. */
    constructor (config: Config, servoIds: seq<int>, baudrate: int, bus: Bus)
      requires IsSupportedType(config.servoType)
      ensures Valid()
      ensures this.servoIds == servoIds && servoType == config.servoType && port == config.port
      ensures this.baudrate == baudrate && this.bus == bus
      ensures portHandler == None && packetHandler == None && !connected
    {
      this.servoIds := servoIds;
      servoType := config.servoType;
      port := config.port;
      this.baudrate := baudrate;
      this.bus := bus;
      portHandler := None;
      packetHandler := None;
      connected := false;
    }

    /** `connect`: nothing to do when already connected; otherwise create
        both handlers and open the port. Only a fully successful opening
        sets `connected`; a refused baudrate closes the port again. */
    method Connect() returns (r: Outcome)
      requires Valid()
      modifies this
      modifies bus
      ensures Valid()
      ensures Extends(old(bus.history), bus.history)
      ensures old(connected) ==>
                r == Pass && connected && bus.history == old(bus.history)
                && portHandler == old(portHandler) && packetHandler == old(packetHandler)
      ensures !old(connected) ==>
                portHandler == Some(port) && packetHandler == Some(ProtocolOf(servoType))
                && Opens(port, baudrate, Added(old(bus.history), bus.history), r)
                && (connected <==> r == Pass)
    {
      if connected {
        return Pass;
      }
      portHandler := Some(port);
      packetHandler := Some(ProtocolOf(servoType));
      r := Open(bus, port, baudrate);
      if r == Pass {
        connected := true;
      }
    }

    /** `disable_all_servos`: when connected, write 0 to the torque-enable
        register of every configured servo, whatever each write answers;
        nothing at all when not connected. */
    method DisableAllServos()
      requires Valid()
      modifies bus
      ensures Extends(old(bus.history), bus.history)
      ensures !connected ==> bus.history == old(bus.history)
      ensures connected ==> DisablesAll(servoIds, Added(old(bus.history), bus.history))
    {
      if !connected {
        return;
      }
      ghost var t: seq<Exchange> := [];
      for j := 0 to |servoIds|
        invariant bus.history == old(bus.history) + t
        invariant |t| == j
        invariant forall k :: 0 <= k < j ==> t[k].request == Write1Byte(servoIds[k], TORQUE_ENABLE_ADDR, 0)
      {
        var written := bus.Call(Write1Byte(servoIds[j], TORQUE_ENABLE_ADDR, 0));
        t := t + [Exchange(Write1Byte(servoIds[j], TORQUE_ENABLE_ADDR, 0), written)];
      }
    }

    /** `disconnect`: when connected, disable every servo, close the port
        and clear the flag; nothing at all when not connected. */
    method Disconnect()
      requires Valid()
      modifies this
      modifies bus
      ensures Valid() && !connected
      ensures portHandler == old(portHandler) && packetHandler == old(packetHandler)
      ensures Extends(old(bus.history), bus.history)
      ensures !old(connected) ==> bus.history == old(bus.history)
      ensures old(connected) ==>
                var t := Added(old(bus.history), bus.history);
                |t| == |servoIds| + 1 && DisablesAll(servoIds, t[..|servoIds|])
                && t[|servoIds|].request == ClosePort
    {
      if connected && portHandler.Some? {
        DisableAllServos();
        ghost var h1 := bus.history;
        var _ := bus.Call(ClosePort);
        connected := false;
        assert Added(old(bus.history), bus.history)[..|servoIds|] == Added(old(bus.history), h1);
      }
    }

    /** `read_position`: one position read. A failed transaction and a
        nonzero servo error byte raise CommunicationError; without a
        connection nothing is sent and ConnectionError is raised. */
    method ReadPosition(motorId: int) returns (r: Result<int>)
      requires Valid()
      modifies bus
      ensures Extends(old(bus.history), bus.history)
      ensures !connected ==> r == Err(ConnectionError(NotConnected)) && bus.history == old(bus.history)
      ensures connected ==>
                var t := Added(old(bus.history), bus.history);
                |t| == 1 && t[0].request == ReadPos(motorId) && r == ReadPosOutcome(motorId, t[0].reply)
    {
      if !connected {
        return Err(ConnectionError(NotConnected));
      }
      var rep := bus.Call(ReadPos(motorId));
      if rep.comm != COMM_SUCCESS {
        return Err(CommunicationError(ReadFailed(motorId)));
      }
      if rep.error != 0 {
        return Err(CommunicationError(MotorFault(motorId)));
      }
      r := Ok(rep.value);
    }

    /** `read_positions`: one group read of the present positions of
        `motorIds` (the configured servos when None). The result holds
        exactly the requested motors whose data came back; a failed
        transaction raises CommunicationError. */
    method ReadPositions(motorIds: Option<seq<int>>) returns (r: Result<map<int, int>>)
      requires Valid()
      modifies bus
      ensures Extends(old(bus.history), bus.history)
      ensures !connected ==> r == Err(ConnectionError(NotConnected)) && bus.history == old(bus.history)
      ensures connected ==>
                var ids := motorIds.GetOr(servoIds);
                var t := Added(old(bus.history), bus.history);
                IsGroupRead(ids, PRESENT_POSITION_ADDR, POSITION_DATA_LENGTH, t)
                && r == ReadOutcome(ids, t)
      ensures r.Ok? ==> forall k :: k in r.value ==> k in motorIds.GetOr(servoIds)
    {
      if !connected {
        return Err(ConnectionError(NotConnected));
      }
      var ids := motorIds.GetOr(servoIds);
      var ok, positions := GroupRead(bus, ids, PRESENT_POSITION_ADDR, POSITION_DATA_LENGTH);
      if !ok {
        return Err(CommunicationError(GroupReadFailed));
      }
      r := Ok(positions);
    }

    /** `set_middle_position`: HLS servos recalibrate their offset so the
        present position reads 2048; STS servos get the middle command in
        one group sync write. Both then read the positions back and answer
        whether every servo is within the tolerance of 2048. */
    method SetMiddlePosition(motorIds: Option<seq<int>>) returns (r: Result<bool>)
      requires Valid()
      modifies bus
      ensures Extends(old(bus.history), bus.history)
      ensures !connected ==> r == Err(ConnectionError(NotConnected)) && bus.history == old(bus.history)
      ensures connected && servoType == "hls" ==>
                HlsMiddleSteps(motorIds.GetOr(servoIds), Added(old(bus.history), bus.history), r)
      ensures connected && servoType == "sts" ==>
                StsMiddleSteps(motorIds.GetOr(servoIds), Added(old(bus.history), bus.history), r)
    {
      if !connected {
        return Err(ConnectionError(NotConnected));
      }
      var ids := motorIds.GetOr(servoIds);
      if servoType == "hls" {
        r := MiddleByCalibration(ids);
      } else {
        r := MiddleBySyncWrite(ids);
      }
    }

    /** The HLS branch of `set_middle_position`. */
    method MiddleByCalibration(ids: seq<int>) returns (r: Result<bool>)
      requires Valid() && connected
      modifies bus
      ensures Extends(old(bus.history), bus.history)
      ensures HlsMiddleSteps(ids, Added(old(bus.history), bus.history), r)
    {
      ghost var h0 := bus.history;
      var allSuccess := CalibrateAll(bus, ids);
      if !allSuccess {
        return Err(CommunicationError(CalibrationFailed));
      }
      ghost var h1 := bus.history;
      r := VerifyMiddle(ids);
      ghost var t := Added(h0, bus.history);
      assert t == Added(h0, h1) + Added(h1, bus.history);
      assert t[..|ids|] == Added(h0, h1);
      assert t[|ids|..] == Added(h1, bus.history);
    }

    /** The STS branch of `set_middle_position`. */
    method MiddleBySyncWrite(ids: seq<int>) returns (r: Result<bool>)
      requires Valid() && connected
      modifies bus
      ensures Extends(old(bus.history), bus.history)
      ensures StsMiddleSteps(ids, Added(old(bus.history), bus.history), r)
    {
      ghost var h0 := bus.history;
      var refused := QueueMiddleCommand(bus, ids);
      if refused.Some? {
        return Err(CommunicationError(SyncWriteAddFailed(ids[refused.value])));
      }
      ghost var h1 := bus.history;
      r := SyncWriteMiddle(ids);
      ghost var t := Added(h0, bus.history);
      assert t == Added(h0, h1) + Added(h1, bus.history);
      assert t[..|ids|] == Added(h0, h1);
      assert t[|ids|..] == Added(h1, bus.history);
    }

    /** The sync write of the queued middle command, then the read-back. */
    method SyncWriteMiddle(ids: seq<int>) returns (r: Result<bool>)
      requires Valid() && connected
      modifies bus
      ensures Extends(old(bus.history), bus.history)
      ensures SyncWriteThenVerifies(ids, Added(old(bus.history), bus.history), r)
    {
      ghost var h0 := bus.history;
      var tx := bus.Call(GroupWriteTx(TORQUE_ENABLE_ADDR, 1));
      if tx.comm != COMM_SUCCESS {
        return Err(CommunicationError(SyncWriteFailed));
      }
      var cleared := bus.Call(GroupWriteClear);
      ghost var h1 := bus.history;
      r := VerifyMiddle(ids);
      ghost var t := Added(h0, bus.history);
      assert t == [Exchange(GroupWriteTx(TORQUE_ENABLE_ADDR, 1), tx), Exchange(GroupWriteClear, cleared)]
                  + Added(h1, bus.history);
      assert t[2..] == Added(h1, bus.history);
    }

    /** The read-back that ends `set_middle_position`. */
    method VerifyMiddle(ids: seq<int>) returns (r: Result<bool>)
      requires Valid() && connected
      modifies bus
      ensures Extends(old(bus.history), bus.history)
      ensures Verifies(ids, Added(old(bus.history), bus.history), r)
    {
      var positions := ReadPositions(Some(ids));
      if positions.Err? {
        r := Err(positions.error);
      } else {
        var allGood := CheckMiddle(positions.value);
        r := Ok(allGood);
      }
    }

    /** `_lock_eeprom_safe`: one lock attempt, whatever it answers. */
    method LockEepromSafe(id: int) returns (ghost e: Exchange)
      requires Valid()
      modifies bus
      ensures Extends(old(bus.history), bus.history)
      ensures Requests(Added(old(bus.history), bus.history)) == [LockEeprom(id)]
      ensures bus.history == old(bus.history) + [e] && e.request == LockEeprom(id)
    {
      var reply := bus.Call(LockEeprom(id));
      e := Exchange(LockEeprom(id), reply);
    }

    /** `set_motor_id`: after the connection, range and sameness checks and
        an optional typed confirmation, write the new ID into the servo's
        EEPROM between an unlock and a lock. Nothing is sent when a check
        fails or the confirmation is refused; `answer` is what the user
        types when asked. */
    method SetMotorId(currentId: int, newId: int, confirm: bool, answer: string) returns (r: Result<bool>)
      requires Valid()
      modifies bus
      ensures Extends(old(bus.history), bus.history)
      ensures !connected ==> r == Err(ConnectionError(NotConnected)) && bus.history == old(bus.history)
      ensures connected && !(0 <= currentId <= MAX_SERVO_ID) ==>
                r == Err(ValueError(CurrentIdOutOfRange(currentId))) && bus.history == old(bus.history)
      ensures connected && 0 <= currentId <= MAX_SERVO_ID && !(0 <= newId <= MAX_SERVO_ID) ==>
                r == Err(ValueError(NewIdOutOfRange(newId))) && bus.history == old(bus.history)
      ensures connected && 0 <= currentId <= MAX_SERVO_ID && 0 <= newId <= MAX_SERVO_ID && currentId == newId ==>
                r == Err(ValueError(SameIds)) && bus.history == old(bus.history)
      ensures connected && 0 <= currentId <= MAX_SERVO_ID && 0 <= newId <= MAX_SERVO_ID && currentId != newId ==>
                if confirm && !Confirmed(answer) then r == Ok(false) && bus.history == old(bus.history)
                else IdChangeSteps(currentId, newId, Added(old(bus.history), bus.history), r)
    {
      if !connected {
        return Err(ConnectionError(NotConnected));
      }
      if !(0 <= currentId <= MAX_SERVO_ID) {
        return Err(ValueError(CurrentIdOutOfRange(currentId)));
      }
      if !(0 <= newId <= MAX_SERVO_ID) {
        return Err(ValueError(NewIdOutOfRange(newId)));
      }
      if currentId == newId {
        return Err(ValueError(SameIds));
      }
      if confirm && !Confirmed(answer) {
        return Ok(false);
      }
      r := ChangeId(currentId, newId);
    }

    /** The EEPROM steps of `set_motor_id` once the checks passed. */
    method ChangeId(currentId: int, newId: int) returns (r: Result<bool>)
      requires Valid()
      modifies bus
      ensures Extends(old(bus.history), bus.history)
      ensures IdChangeSteps(currentId, newId, Added(old(bus.history), bus.history), r)
    {
      ghost var h0 := bus.history;
      var ping := bus.Call(Ping(currentId));
      ghost var e0 := Exchange(Ping(currentId), ping);
      if ping.comm != COMM_SUCCESS {
        ghost var lock := LockEepromSafe(currentId);
        AddedSuffix(h0, bus.history, [e0, lock]);
        PingFailedTrace(currentId, newId, e0, lock);
        return Err(CommunicationError(PingFailed(currentId)));
      }
      var unlock := bus.Call(UnlockEeprom(currentId));
      ghost var e1 := Exchange(UnlockEeprom(currentId), unlock);
      if unlock.comm != COMM_SUCCESS {
        ghost var lock := LockEepromSafe(currentId);
        AddedSuffix(h0, bus.history, [e0, e1, lock]);
        UnlockFailedTrace(currentId, newId, e0, e1, lock);
        return Err(CommunicationError(UnlockFailed));
      }
      var write := bus.Call(Write1Byte(currentId, ID_ADDR, newId));
      ghost var e2 := Exchange(Write1Byte(currentId, ID_ADDR, newId), write);
      if write.comm != COMM_SUCCESS {
        // once before raising, once more in the exception handler
        ghost var lock := LockEepromSafe(currentId);
        ghost var relock := LockEepromSafe(currentId);
        AddedSuffix(h0, bus.history, [e0, e1, e2, lock, relock]);
        WriteFailedTrace(currentId, newId, e0, e1, e2, lock, relock);
        return Err(CommunicationError(WriteIdFailed));
      }
      ghost var lock := LockEepromSafe(currentId);
      AddedSuffix(h0, bus.history, [e0, e1, e2, lock]);
      IdChangedTrace(currentId, newId, e0, e1, e2, lock);
      r := Ok(true);
    }

    /** `set_operating_mode`: a mode outside 0..3 is refused before
        anything is sent; otherwise the mode register is rewritten between
        an unlock and a lock, and the answer says whether it was. */
    method SetOperatingMode(motorId: int, mode: int) returns (r: Result<bool>)
      requires Valid()
      modifies bus
      ensures Extends(old(bus.history), bus.history)
      ensures !connected ==> r == Err(ConnectionError(NotConnected)) && bus.history == old(bus.history)
      ensures connected && !(0 <= mode <= 3) ==> r == Err(ValueError(InvalidMode(mode))) && bus.history == old(bus.history)
      ensures connected && 0 <= mode <= 3 ==>
                r.Ok? && ModeSteps(motorId, mode, Added(old(bus.history), bus.history), r.value)
    {
      if !connected {
        return Err(ConnectionError(NotConnected));
      }
      if !(0 <= mode <= 3) {
        return Err(ValueError(InvalidMode(mode)));
      }
      var unlock := bus.Call(UnlockEeprom(motorId));
      if unlock.comm != COMM_SUCCESS {
        return Ok(false);
      }
      var write := bus.Call(Write1Byte(motorId, MODE_ADDR, mode));
      if write.comm != COMM_SUCCESS {
        ghost var lock := LockEepromSafe(motorId);
        return Ok(false);
      }
      var _ := bus.Call(LockEeprom(motorId));
      r := Ok(true);
    }

    /** One motor of `write_torque`: read the mode and switch to torque
        mode when needed, enable torque when it reads back as off, then
        write the clamped, encoded goal torque. A failed mode read or mode
        switch ends the motor's turn with nothing written. */
    method WriteTorqueOne(motorId: int, torque: real) returns (ok: bool)
      requires Valid() && connected
      modifies bus
      ensures Extends(old(bus.history), bus.history)
      ensures TorqueTurn(motorId, TorqueWord(torque), Added(old(bus.history), bus.history), ok)
    {
      ghost var h0 := bus.history;
      var ready := EnsureTorqueMode(motorId);
      if !ready {
        TurnStoppedTrace(motorId, TorqueWord(torque), Added(h0, bus.history));
        return false;
      }
      ghost var h1 := bus.history;
      ok := EnableAndWriteTorque(motorId, TorqueWord(torque));
      AddedTwice(h0, h1, bus.history);
      TurnWrittenTrace(motorId, TorqueWord(torque), Added(h0, h1), Added(h1, bus.history), ok);
    }

    /** The mode check of `write_torque`: read the operating mode and, when
        it is not torque mode, switch to it. `ready` says the motor may go
        on; nothing here writes a goal torque. */
    method EnsureTorqueMode(motorId: int) returns (ready: bool)
      requires Valid() && connected
      modifies bus
      ensures Extends(old(bus.history), bus.history)
      ensures ModeCheck(motorId, Added(old(bus.history), bus.history), ready)
    {
      ghost var h0 := bus.history;
      var mode := bus.Call(Read1Byte(motorId, MODE_ADDR));
      ghost var read := Exchange(Read1Byte(motorId, MODE_ADDR), mode);
      AddedSuffix(h0, bus.history, [read]);
      if mode.comm != COMM_SUCCESS || mode.value == TORQUE_MODE {
        ModeReadTrace(motorId, read);
        return mode.comm == COMM_SUCCESS;
      }
      ghost var h1 := bus.history;
      var switched := SetOperatingMode(motorId, TORQUE_MODE);
      ready := switched == Ok(true);
      AddedTwice(h0, h1, bus.history);
      ModeSwitchTrace(motorId, read, Added(h1, bus.history), ready);
    }

    /** The rest of a motor's turn in `write_torque`: enable torque when it
        reads back as off, then write the goal-torque word. */
    method EnableAndWriteTorque(motorId: int, word: int) returns (ok: bool)
      requires Valid() && connected
      modifies bus
      ensures Extends(old(bus.history), bus.history)
      ensures EnableWrite(motorId, word, Added(old(bus.history), bus.history), ok)
    {
      ghost var h0 := bus.history;
      var enabled := bus.Call(Read1Byte(motorId, TORQUE_ENABLE_ADDR));
      ghost var first := [Exchange(Read1Byte(motorId, TORQUE_ENABLE_ADDR), enabled)];
      ghost var middle: seq<Exchange> := [];
      if enabled.comm == COMM_SUCCESS && enabled.value != 1 {
        var on := bus.Call(Write1Byte(motorId, TORQUE_ENABLE_ADDR, 1));
        middle := [Exchange(Write1Byte(motorId, TORQUE_ENABLE_ADDR, 1), on)];
      }
      var written := bus.Call(Write2Byte(motorId, GOAL_TORQUE_ADDR, word));
      ok := written.comm == COMM_SUCCESS;
      ghost var last := [Exchange(Write2Byte(motorId, GOAL_TORQUE_ADDR, word), written)];
      AddedTriple(h0, bus.history, first, middle, last);
      RequestsJoin(first + middle, last);
      RequestsJoin(first, middle);
    }

    /** `write_torque` (HLS only): every motor of `torques`, in order,
        takes one turn, and `turns` are those turns, whose traffic is the
        whole of the bus traffic; the answer maps each motor to whether the
        servo accepted its torque word. */
    method WriteTorque(torques: seq<(int, real)>)
      returns (r: Result<map<int, bool>>, ghost turns: seq<seq<Exchange>>, ghost oks: seq<bool>)
      requires Valid() && DistinctIds(torques)
      modifies bus
      ensures Extends(old(bus.history), bus.history)
      ensures !connected ==> r == Err(ConnectionError(NotConnected)) && bus.history == old(bus.history)
      ensures connected && servoType != "hls" ==>
                r == Err(ValueError(TorqueNeedsHls)) && bus.history == old(bus.history)
      ensures connected && servoType == "hls" ==>
                r.Ok? && TorqueResults(torques, |torques|, r.value, Added(old(bus.history), bus.history))
                && TorqueTurns(torques, |torques|, Added(old(bus.history), bus.history), turns, oks)
                && Answers(torques, |torques|, r.value, oks)
    {
      turns, oks := [], [];
      if !connected {
        return Err(ConnectionError(NotConnected)), turns, oks;
      }
      if servoType != "hls" {
        return Err(ValueError(TorqueNeedsHls)), turns, oks;
      }
      var results: map<int, bool> := map[];
      ghost var t: seq<Exchange> := [];
      for i := 0 to |torques|
        invariant bus.history == old(bus.history) + t
        invariant TorqueResults(torques, i, results, t)
        invariant TorqueTurns(torques, i, t, turns, oks)
        invariant Answers(torques, i, results, oks)
      {
        var (id, torque) := torques[i];
        ghost var h := bus.history;
        var ok := WriteTorqueOne(id, torque);
        ghost var seg := Added(h, bus.history);
        TurnShape(id, TorqueWord(torque), seg, ok);
        TorqueResultsStep(torques, i, results, t, seg, ok);
        TurnsStep(torques, i, t, turns, oks, seg, ok);
        AnswersStep(torques, i, results, oks, ok);
        AddedAppend(old(bus.history), h, bus.history, t);
        results := results[id := ok];
        t := t + seg;
        turns, oks := turns + [seg], oks + [ok];
      }
      r := Ok(results);
    }

    /** `read_voltage`: one voltage reading. */
    method ReadVoltage(motorId: int) returns (volts: real)
      requires Valid()
      modifies bus
      ensures Extends(old(bus.history), bus.history)
      ensures var t := Added(old(bus.history), bus.history);
                |t| == 1 && t[0].request == ReadVoltageOp(motorId) && volts == t[0].reply.measure
    {
      var rep := bus.Call(ReadVoltageOp(motorId));
      volts := rep.measure;
    }

    /** `write_position`: one position command for several motors. */
    method WritePosition(positions: map<int, int>, speed: Option<int>, acceleration: Option<int>)
      requires Valid()
      modifies bus
      ensures Extends(old(bus.history), bus.history)
      ensures Requests(Added(old(bus.history), bus.history)) == [WritePositionOp(positions, speed, acceleration)]
    {
      var _ := bus.Call(WritePositionOp(positions, speed, acceleration));
    }

    /** `joint_limit_calibration`: the interactive joint-limit sweep. */
    method JointLimitCalibration()
      requires Valid()
      modifies bus
      ensures Extends(old(bus.history), bus.history)
      ensures Requests(Added(old(bus.history), bus.history)) == [JointLimitCalibrationOp]
    {
      var _ := bus.Call(JointLimitCalibrationOp);
    }

    /** `read_positions_continuous`: the continuous reading loop the
        command-line front end starts. */
    method ReadPositionsContinuous(frequency: real)
      requires Valid()
      modifies bus
      ensures Extends(old(bus.history), bus.history)
      ensures Requests(Added(old(bus.history), bus.history)) == [ReadPositionsContinuousOp(frequency)]
    {
      var _ := bus.Call(ReadPositionsContinuousOp(frequency));
    }
  }

  /** `ServoController(...)`: the checks of `__init__`, then the object. */
  method NewServoController(servoIds: seq<int>, servoType: string, port: Option<string>, baudrate: int,
                            system: string, devices: seq<string>, bus: Bus) returns (r: Result<ServoController>)
    ensures var config := Configure(servoType, port, system, devices);
              (config.Err? ==> r == Err(config.error))
              && (config.Ok? ==>
                    r.Ok? && fresh(r.value) && r.value.Valid() && !r.value.connected
                    && r.value.portHandler.None? && r.value.packetHandler.None?
                    && r.value.servoIds == servoIds && r.value.servoType == config.value.servoType
                    && r.value.port == config.value.port && r.value.baudrate == baudrate && r.value.bus == bus)
  {
    var config := Configure(servoType, port, system, devices);
    if config.Err? {
      return Err(config.error);
    }
    var controller := new ServoController(config.value, servoIds, baudrate, bus);
    r := Ok(controller);
  }
}
