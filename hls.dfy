/** The HLS packet handler of the vendor SDK: its register map and the
    packets it builds. Every operation is one transaction on the bus, so
    each is modelled by the request it sends; what matters is which
    registers that request touches and with which bytes. The byte and word
    helpers it calls belong to the protocol packet handler, which is not
    part of this model: they are parameters, and nothing is assumed about
    their arithmetic. */
module HlsPackets {
  import opened Bus

  // Baud-rate codes.
  const HLS_1M := 0
  const HLS_0_5M := 1
  const HLS_250K := 2
  const HLS_128K := 3
  const HLS_115200 := 4
  const HLS_76800 := 5
  const HLS_57600 := 6
  const HLS_38400 := 7

  // EEPROM, read-only.
  const HLS_MODEL_L := 3
  const HLS_MODEL_H := 4

  // EEPROM, read-write.
  const HLS_ID := 5
  const HLS_BAUD_RATE := 6
  const HLS_MIN_ANGLE_LIMIT_L := 9
  const HLS_MIN_ANGLE_LIMIT_H := 10
  const HLS_MAX_ANGLE_LIMIT_L := 11
  const HLS_MAX_ANGLE_LIMIT_H := 12
  const HLS_CW_DEAD := 26
  const HLS_CCW_DEAD := 27
  const HLS_OFS_L := 31
  const HLS_OFS_H := 32
  const HLS_MODE := 33

  // SRAM, read-write.
  const HLS_TORQUE_ENABLE := 40
  const HLS_ACC := 41
  const HLS_GOAL_POSITION_L := 42
  const HLS_GOAL_POSITION_H := 43
  const HLS_GOAL_TORQUE_L := 44
  const HLS_GOAL_TORQUE_H := 45
  const HLS_GOAL_SPEED_L := 46
  const HLS_GOAL_SPEED_H := 47
  const HLS_LOCK := 55

  // SRAM, read-only.
  const HLS_PRESENT_POSITION_L := 56
  const HLS_PRESENT_POSITION_H := 57
  const HLS_PRESENT_SPEED_L := 58
  const HLS_PRESENT_SPEED_H := 59
  const HLS_PRESENT_LOAD_L := 60
  const HLS_PRESENT_LOAD_H := 61
  const HLS_PRESENT_VOLTAGE := 62
  const HLS_PRESENT_TEMPERATURE := 63
  const HLS_MOVING := 66
  const HLS_PRESENT_CURRENT_L := 69
  const HLS_PRESENT_CURRENT_H := 70

  /** The sign bit the position and speed conversions use. */
  const SIGN_BIT := 15

  /** Start address and data length of the handler's group sync write,
      fixed when the handler is built. */
  const SYNC_WRITE_START := HLS_ACC
  const SYNC_WRITE_LENGTH := 7

  /** `scs_lobyte`, `scs_hibyte`, `scs_loword`, `scs_hiword`, `scs_tohost`
      and `scs_toscs` of the protocol packet handler. */
  datatype Helpers = Helpers(lobyte: int -> int, hibyte: int -> int, loword: int -> int, hiword: int -> int,
                             tohost: (int, int) -> int, toscs: (int, int) -> int)

  /** The register each byte of a write of `data` starting at `address`
      lands on, with that byte. */
  function Stores(address: int, data: seq<int>): map<int, int>
    decreases |data|
  {
    if |data| == 0 then map[] else Stores(address + 1, data[1..])[address := data[0]]
  }

  /** Where the bytes of a 7-byte write land. */
  lemma StoresSeven(address: int, d: seq<int>)
    requires |d| == 7
    ensures Stores(address, d)
         == map[address := d[0], address + 1 := d[1], address + 2 := d[2], address + 3 := d[3],
                address + 4 := d[4], address + 5 := d[5], address + 6 := d[6]]
  {
    assert d[6..][1..] == [];
    var m6 := map[address + 6 := d[6]];
    assert Stores(address + 6, d[6..]) == m6;
    assert d[5..][1..] == d[6..];
    var m5 := m6[address + 5 := d[5]];
    assert Stores(address + 5, d[5..]) == m5;
    assert d[4..][1..] == d[5..];
    var m4 := m5[address + 4 := d[4]];
    assert Stores(address + 4, d[4..]) == m4;
    assert d[3..][1..] == d[4..];
    var m3 := m4[address + 3 := d[3]];
    assert Stores(address + 3, d[3..]) == m3;
    assert d[2..][1..] == d[3..];
    var m2 := m3[address + 2 := d[2]];
    assert Stores(address + 2, d[2..]) == m2;
    assert d[1..][1..] == d[2..];
    var m1 := m2[address + 1 := d[1]];
    assert Stores(address + 1, d[1..]) == m1;
    var m0 := m1[address := d[0]];
    assert Stores(address, d) == m0;
    assert m0.Keys == {address, address + 1, address + 2, address + 3, address + 4, address + 5, address + 6};
  }

  /** The registers a read of `length` bytes at `address` covers. */
  function Covered(address: int, length: nat): set<int> {
    if length == 0 then {} else Covered(address, length - 1) + {address + length - 1}
  }

  /** The registers a request writes, with their bytes; the members of a
      group sync write go to the group's registers. */
  function Writes(r: Request): map<int, int> {
    match r
    case WriteBlock(_, address, data) => Stores(address, data)
    case RegWriteBlock(_, address, data) => Stores(address, data)
    case GroupWriteAdd(_, data) => Stores(SYNC_WRITE_START, data)
    case Write1Byte(_, address, value) => Stores(address, [value])
    case _ => map[]
  }

  /** The registers a request reads. */
  function Reads(r: Request): set<int> {
    match r
    case Read1Byte(_, address) => Covered(address, 1)
    case Read2Byte(_, address) => Covered(address, 2)
    case Read4Byte(_, address) => Covered(address, 4)
    case _ => {}
  }

  /** The goal block, register by register: acceleration, then the low and
      high bytes of the goal position, goal torque and goal speed. */
  function GoalRegisters(acc: int, posLo: int, posHi: int, torqueLo: int, torqueHi: int,
                         speedLo: int, speedHi: int): map<int, int> {
    map[HLS_ACC := acc,
        HLS_GOAL_POSITION_L := posLo, HLS_GOAL_POSITION_H := posHi,
        HLS_GOAL_TORQUE_L := torqueLo, HLS_GOAL_TORQUE_H := torqueHi,
        HLS_GOAL_SPEED_L := speedLo, HLS_GOAL_SPEED_H := speedHi]
  }

  /** The registers a position command sets: the position is converted
      with `scs_tohost` on the sign bit; torque and speed are split as
      given. */
  function PositionGoal(h: Helpers, position: int, speed: int, acc: int, torque: int): map<int, int> {
    var p := h.tohost(position, SIGN_BIT);
    GoalRegisters(acc, h.lobyte(p), h.hibyte(p), h.lobyte(torque), h.hibyte(torque), h.lobyte(speed), h.hibyte(speed))
  }

  /** The 7-byte packet of `WritePosEx`, `SyncWritePosEx` and `RegWritePosEx`. */
  function GoalPacket(h: Helpers, position: int, speed: int, acc: int, torque: int): (data: seq<int>)
    ensures |data| == SYNC_WRITE_LENGTH
    ensures Stores(HLS_ACC, data) == PositionGoal(h, position, speed, acc, torque)
  {
    var p := h.tohost(position, SIGN_BIT);
    var data := [acc, h.lobyte(p), h.hibyte(p), h.lobyte(torque), h.hibyte(torque), h.lobyte(speed), h.hibyte(speed)];
    StoresSeven(HLS_ACC, data);
    data
  }

  /** The group sync write covers the goal block and nothing else. */
  lemma SyncWriteCoversGoal(data: seq<int>)
    requires |data| == SYNC_WRITE_LENGTH
    ensures forall a :: a in Stores(SYNC_WRITE_START, data) <==> HLS_ACC <= a <= HLS_GOAL_SPEED_H
    ensures HLS_GOAL_SPEED_H - HLS_ACC + 1 == SYNC_WRITE_LENGTH
  {
    StoresSeven(SYNC_WRITE_START, data);
  }

  /** `WritePosEx`: writes the goal block of one servo at once. */
  function WritePosEx(h: Helpers, id: int, position: int, speed: int, acc: int, torque: int): (r: Request)
    ensures r.WriteBlock? && r.id == id
    ensures Writes(r) == PositionGoal(h, position, speed, acc, torque)
  {
    WriteBlock(id, HLS_ACC, GoalPacket(h, position, speed, acc, torque))
  }

  /** `SyncWritePosEx`: queues one servo's goal block in the group sync
      write, whose start and length match the packet. */
  function SyncWritePosEx(h: Helpers, id: int, position: int, speed: int, acc: int, torque: int): (r: Request)
    ensures r.GroupWriteAdd? && r.id == id && |r.data| == SYNC_WRITE_LENGTH
    ensures Writes(r) == PositionGoal(h, position, speed, acc, torque)
  {
    GroupWriteAdd(id, GoalPacket(h, position, speed, acc, torque))
  }

  /** `RegWritePosEx`: the same block, held by the servo until the next
      action command. */
  function RegWritePosEx(h: Helpers, id: int, position: int, speed: int, acc: int, torque: int): (r: Request)
    ensures r.RegWriteBlock? && r.id == id
    ensures Writes(r) == PositionGoal(h, position, speed, acc, torque)
  {
    RegWriteBlock(id, HLS_ACC, GoalPacket(h, position, speed, acc, torque))
  }

  /** The three position commands carry one and the same packet. */
  lemma PositionCommandsAgree(h: Helpers, id: int, position: int, speed: int, acc: int, torque: int)
    ensures WritePosEx(h, id, position, speed, acc, torque).data == SyncWritePosEx(h, id, position, speed, acc, torque).data
    ensures SyncWritePosEx(h, id, position, speed, acc, torque).data == RegWritePosEx(h, id, position, speed, acc, torque).data
  {
  }

  /** `WriteSpec`: the goal block with both position bytes zero and the
      speed converted with `scs_toscs` on the sign bit. */
  function WriteSpec(h: Helpers, id: int, speed: int, acc: int, torque: int): (r: Request)
    ensures r.WriteBlock? && r.id == id && |r.data| == SYNC_WRITE_LENGTH
    ensures var s := h.toscs(speed, SIGN_BIT);
            Writes(r) == GoalRegisters(acc, 0, 0, h.lobyte(torque), h.hibyte(torque), h.lobyte(s), h.hibyte(s))
  {
    var s := h.toscs(speed, SIGN_BIT);
    var data := [acc, 0, 0, h.lobyte(torque), h.hibyte(torque), h.lobyte(s), h.hibyte(s)];
    StoresSeven(HLS_ACC, data);
    WriteBlock(id, HLS_ACC, data)
  }

  /** `WriteSpec` and `WritePosEx` touch the same registers and agree on
      acceleration and torque; they differ only in the position and speed
      bytes. */
  lemma SpecKeepsAccelerationAndTorque(h: Helpers, id: int, position: int, speed: int, acc: int, torque: int)
    ensures Writes(WriteSpec(h, id, speed, acc, torque)).Keys == Writes(WritePosEx(h, id, position, speed, acc, torque)).Keys
    ensures forall a :: a in {HLS_ACC, HLS_GOAL_TORQUE_L, HLS_GOAL_TORQUE_H} ==>
              Writes(WriteSpec(h, id, speed, acc, torque))[a] == Writes(WritePosEx(h, id, position, speed, acc, torque))[a]
    ensures Writes(WriteSpec(h, id, speed, acc, torque))[HLS_GOAL_POSITION_L] == 0
    ensures Writes(WriteSpec(h, id, speed, acc, torque))[HLS_GOAL_POSITION_H] == 0
  {
  }

  /** `LockEprom`: one byte, 1, into the lock register. */
  function LockEprom(id: int): (r: Request)
    ensures r.Write1Byte? && r.id == id
    ensures Writes(r) == map[HLS_LOCK := 1]
  {
    assert [1][1..] == [];
    Write1Byte(id, HLS_LOCK, 1)
  }

  /** `unLockEprom`: one byte, 0, into the lock register. */
  function UnlockEprom(id: int): (r: Request)
    ensures r.Write1Byte? && r.id == id
    ensures Writes(r) == map[HLS_LOCK := 0]
  {
    assert [0][1..] == [];
    Write1Byte(id, HLS_LOCK, 0)
  }

  /** Locking and unlocking write the same single register, with
      different values, and touch nothing else. */
  lemma LockUnlockSameRegister(id: int)
    ensures Writes(LockEprom(id)).Keys == Writes(UnlockEprom(id)).Keys == {HLS_LOCK}
    ensures Writes(LockEprom(id))[HLS_LOCK] != Writes(UnlockEprom(id))[HLS_LOCK]
  {
  }

  /** `WheelMode`: one byte, 1, into the mode register. */
  function WheelMode(id: int): (r: Request)
    ensures r.Write1Byte? && r.id == id
    ensures Writes(r) == map[HLS_MODE := 1]
  {
    assert [1][1..] == [];
    Write1Byte(id, HLS_MODE, 1)
  }

  /** The request of `ReadPos`: the two present-position registers. */
  function ReadPosRequest(id: int): (r: Request)
    ensures r.Read2Byte? && r.id == id
    ensures Reads(r) == {HLS_PRESENT_POSITION_L, HLS_PRESENT_POSITION_H}
  {
    Read2Byte(id, HLS_PRESENT_POSITION_L)
  }

  /** What `ReadPos` returns for the reply: the position word converted
      with `scs_tohost` on the sign bit, the communication result and the
      servo's error byte. */
  function ReadPos(h: Helpers, reply: Reply): (r: (int, int, int))
    ensures r.0 == h.tohost(reply.value, SIGN_BIT)
    ensures r.1 == reply.comm && r.2 == reply.error
  {
    (h.tohost(reply.value, SIGN_BIT), reply.comm, reply.error)
  }

  /** The request of `ReadPosSpeed`: the present position and the present
      speed in one read. */
  function ReadPosSpeedRequest(id: int): (r: Request)
    ensures r.Read4Byte? && r.id == id
    ensures Reads(r) == {HLS_PRESENT_POSITION_L, HLS_PRESENT_POSITION_H, HLS_PRESENT_SPEED_L, HLS_PRESENT_SPEED_H}
  {
    Read4Byte(id, HLS_PRESENT_POSITION_L)
  }

  /** What `ReadPosSpeed` returns: the low word is the position, the high
      word the speed, both converted with `scs_tohost` on the sign bit. */
  function ReadPosSpeed(h: Helpers, reply: Reply): (r: (int, int, int, int))
    ensures r.0 == h.tohost(h.loword(reply.value), SIGN_BIT)
    ensures r.1 == h.tohost(h.hiword(reply.value), SIGN_BIT)
    ensures r.2 == reply.comm && r.3 == reply.error
  {
    (h.tohost(h.loword(reply.value), SIGN_BIT), h.tohost(h.hiword(reply.value), SIGN_BIT), reply.comm, reply.error)
  }

  /** The combined read covers the position read, and when its low word
      is the position word the two report the same position. */
  lemma PosSpeedExtendsPos(h: Helpers, id: int, word: Reply, both: Reply)
    requires h.loword(both.value) == word.value
    ensures Reads(ReadPosRequest(id)) < Reads(ReadPosSpeedRequest(id))
    ensures ReadPosSpeed(h, both).0 == ReadPos(h, word).0
  {
    assert HLS_PRESENT_SPEED_L !in Reads(ReadPosRequest(id));
  }
}
