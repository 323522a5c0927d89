# Feetech servo SDK — a verified model

This project models the Python package `vassar_feetech_servo_sdk` and the scripts built on it. They drive Feetech STS and HLS serial-bus servos. The model covers:

- **`ServoController`** (controller.py). Connects to the servos and reads one position or a group of positions with a sync read. It also sets the middle position, by offset calibration on HLS servos or by a sync write of the value 128 on STS servos, and checks the read-back against 2048 ± 10. It changes a servo's ID inside an unlock/lock of the EEPROM, sets the operating mode and writes normalised torque to HLS servos. It disables every servo on disconnect.
- **`ServoReader`** (the read-only package). Handles the `sms_sts`, `hls` and `scscl` protocols and reads continuously at a fixed rate until interrupted.
- **Port discovery and ID parsing.** Finds the servo port for the platform and parses the comma-separated `--motor-ids` argument of both command-line tools.
- **The command-line `main`s** of both packages, as a function from arguments to how the program ends: return, `sys.exit(code)` or an uncaught exception.
- **The scripts.** `read_leader_positions.py`, the helper module `feetech_utils.py`, and both teleoperation examples. In teleoperation the arm whose first servo reads below 9.0 V leads and the other follows. The joint-limit variant first calibrates the follower, then waits until it is within 20 ticks of the leader, for at most 5 s.
- **The HLS packet handler** (`hls.py`). Covers which registers each command writes or reads.

### How the model is built

- **The serial line is a `Bus.Bus` object.** The program's whole effect on the hardware is the `history` of request/reply exchanges on the bus. Each reply comes from an `oracle` function of the history so far. So every operation is specified by the exact request sequence it sends and by how its result depends on the replies. Examples are `Connection.Opens`, `SyncRead.IsGroupRead`, `Controller.HlsMiddleSteps` and `Controller.IdChangeSteps`.
- **Rate-paced loops end when the clock sequence runs out.** Each loop takes the measured iteration times as a sequence `elapsed` of reals. The loop runs once per entry, and running out of entries stands for the KeyboardInterrupt. The pacing rule itself is in `Pacing`.
- **Python exceptions are values.** They are `Errors.Error`, and the way a program ends is `Endings.Ending`.
- **Platform and device names are parameters.** `platform.system()` and the device names listed by `serial.tools.list_ports` are passed in as `system` and `devices`.

## Model

| member | source | states |
|---|---|---|
| PortDiscovery.FilterPorts | examples/teleoperation.py:15-28 | the listed ports are exactly the devices whose name carries the platform's marker (usbmodem/usbserial on Darwin, ttyUSB/ttyACM on Linux, COM elsewhere) |
| PortDiscovery.FilterCounts | examples/teleoperation.py:15-28 | each qualifying device is kept exactly as many times as it is listed, and no other device appears |
| PortDiscovery.FilterAppend | examples/teleoperation.py:15-28 | filtering a concatenation of listings filters each part in turn |
| PortDiscovery.MatchIndices | examples/teleoperation.py:15-28 | the increasing positions of exactly the qualifying devices |
| PortDiscovery.FilterSelects | examples/teleoperation.py:15-28 | the filter keeps listing order: its i-th port is the device at the i-th qualifying position |
| PortDiscovery.FirstMatch | vassar_feetech_servo_sdk/controller.py:17-41 | index of the first device with the platform's marker; none before it qualifies |
| PortDiscovery.FilterStartsWithFirstMatch | vassar_feetech_servo_sdk/controller.py:17-41 | the filtered list is non-empty iff some device qualifies, and then it starts with the port `find_servo_port` returns |
| PortDiscovery.FilterAfterFirstMatch | vassar_feetech_servo_sdk/controller.py:17-41 | the filtered list is the first match followed by the filter over the devices after it |
| PortDiscovery.SecondPort | examples/teleoperation_with_joint_limits.py:21-36 | the second port the scripts use is the first match among the devices after the first match |
| PortDiscovery.FindServoPort | vassar_feetech_servo_sdk/controller.py:17-41 | returns the first qualifying device; raises PortNotFoundError exactly when none qualifies (the reader package's reader.py:17-41 is the same search) |
| PortDiscovery.FindPort | read_leader_positions.py:27-43 | the same first qualifying device; raises RuntimeError exactly when none qualifies (feetech_utils.py:26-42 is the same search) |
| PortDiscovery.FindPortAgrees | feetech_utils.py:26-42 | the script search and the package search succeed together and then agree on the port |
| PortDiscovery.FoundPortNamed | vassar_feetech_servo_sdk/controller.py:17-41 | a found port has a non-empty name |
| PortDiscovery.ResolvePort | vassar_feetech_servo_sdk/controller.py:77 | a given non-empty port is used unchanged; a missing or empty one triggers the search; a resolved port is never empty |
| PortDiscovery.ResolvePortIdempotent | vassar_feetech_servo_sdk/controller.py:77 | passing an already resolved port back in resolves to the same port |
| PortDiscovery.Insert | examples/teleoperation.py:29 | inserting into a sorted list keeps it sorted and adds exactly one copy of the element |
| PortDiscovery.SortStrings | examples/teleoperation.py:29 | `sorted` yields an ordered permutation of its input |
| PortDiscovery.FindServoPorts | examples/teleoperation.py:15-29 | the script's port list is the qualifying devices, sorted, with multiplicity |
| PortDiscovery.SortedUnique | examples/teleoperation.py:29 | two sorted permutations of one multiset are equal, so the sorted port list is unique |
| Text.Strip | vassar_feetech_servo_sdk/cli.py:13 | `str.strip` leaves no whitespace at either end |
| Text.StripDecomposes | vassar_feetech_servo_sdk/cli.py:13 | the input is leading whitespace, then the stripped text, then trailing whitespace |
| Text.StripPadded | vassar_feetech_servo_sdk/cli.py:13 | stripping a trimmed text padded with whitespace gives back that text |
| Text.Lower | vassar_feetech_servo_sdk/controller.py:76 | keeps the length, maps each ASCII capital to its small letter and leaves every other character as it is |
| Text.LowerIdempotent | vassar_feetech_servo_sdk/controller.py:76 | lowering twice equals lowering once |
| Text.Split | vassar_feetech_servo_sdk/cli.py:13 | `str.split(sep)` yields one more field than separators |
| Text.JoinSplit | vassar_feetech_servo_sdk/cli.py:13 | joining the fields of a split with the separator rebuilds the input |
| Text.SplitJoin | vassar_feetech_servo_sdk/cli.py:13 | splitting a join of separator-free fields gives back the fields |
| Text.ContainsAt | vassar_feetech_servo_sdk/controller.py:29-36 | `in` on strings holds iff the substring occurs at some index |
| Text.LessEqTotal | examples/teleoperation.py:29 | string order used by `sorted` is total |
| Text.LessEqTransitive | examples/teleoperation.py:29 | string order used by `sorted` is transitive |
| Text.LessEqAntisymmetric | examples/teleoperation.py:29 | strings ordered both ways are equal |
| MotorIds.ParseFields | read_leader_positions.py:95 | the list of ints exists iff every field is an integer literal, one value per field in order; otherwise the first bad field's ValueError |
| MotorIds.FirstBad | read_leader_positions.py:95 | index of the first field that is not an integer literal |
| MotorIds.ParseMotorIds | vassar_feetech_servo_sdk/cli.py:11-16 | succeeds iff every comma field is an integer literal, giving count(',')+1 ids in order; otherwise ValueError naming the whole argument (the reader CLI's cli.py:11-16 is the same parser) |
| MotorIds.EmptyInputRejected | vassar_feetech_servo_sdk/cli.py:11-16 | an empty argument is rejected with the format error |
| MotorIds.NatToDecimalValue | vassar_feetech_servo_sdk/cli.py:14 | the decimal text of a natural parses back to it |
| MotorIds.IntOfDecimal | vassar_feetech_servo_sdk/cli.py:14 | `int()` of a signed decimal surrounded by whitespace is that integer |
| MotorIds.ParseFormatted | vassar_feetech_servo_sdk/cli.py:11-16 | any non-empty id list written with commas and whitespace padding parses back to exactly that list |
| Connection.OpensPassIff | vassar_feetech_servo_sdk/controller.py:110-118 | connecting succeeds iff both openPort and setBaudRate succeed; a failed baud rate closes the port again |
| Connection.Open | vassar_feetech_servo_sdk/controller.py:110-116 | sends openPort, then setBaudRate, then closePort on a baud failure, with the matching ConnectionError |
| Controller.Configure | vassar_feetech_servo_sdk/controller.py:64-86 | the constructor succeeds iff a port resolves and the lower-cased type is sts or hls; the failing step picks the error |
| Controller.ConfigureIgnoresCase | vassar_feetech_servo_sdk/controller.py:76 | the servo type's case does not matter |
| Controller.GivenPortSkipsDetection | vassar_feetech_servo_sdk/controller.py:77 | with an explicit port, construction never depends on the listed devices |
| Controller.NewServoController | vassar_feetech_servo_sdk/controller.py:64-86 | a new controller is disconnected with no handlers and holds the given ids, lower-cased type, resolved port and baud rate |
| Controller.ServoController.constructor | vassar_feetech_servo_sdk/controller.py:75-82 | the fields as the constructor sets them |
| Controller.ServoController.Connect | vassar_feetech_servo_sdk/controller.py:88-118 | a no-op when connected; otherwise builds the handlers for the type and opens the port; connected iff that passed |
| Controller.ServoController.DisableAllServos | vassar_feetech_servo_sdk/controller.py:608-637 | when connected, writes torque-enable 0 to every configured servo in order; otherwise nothing |
| Controller.ServoController.Disconnect | vassar_feetech_servo_sdk/controller.py:120-126 | when connected, disables every servo then closes the port; ends disconnected |
| Controller.ServoController.ReadPosition | vassar_feetech_servo_sdk/controller.py:128-157 | not connected raises ConnectionError; otherwise one ReadPos whose outcome is given by SyncRead.ReadPosOutcome |
| SyncRead.ReadPosOutcome | vassar_feetech_servo_sdk/controller.py:146-157 | a position is returned iff the communication succeeded and the servo reports no error; otherwise CommunicationError |
| SyncRead.CollectKeys | vassar_feetech_servo_sdk/controller.py:202-217 | a motor has a position iff it was requested and its data was available |
| SyncRead.CollectKeysRequested | vassar_feetech_servo_sdk/controller.py:202-217 | every motor in the result was requested |
| SyncRead.CollectValue | vassar_feetech_servo_sdk/controller.py:212-217 | a motor's position is the data of its last available read |
| SyncRead.GroupReadOutcome | vassar_feetech_servo_sdk/controller.py:194-228 | the group read succeeds iff the transaction did; otherwise CommunicationError; only requested motors appear |
| SyncRead.PositionsRequested | vassar_feetech_servo_sdk/controller.py:202-217 | a motor appears iff it was requested and its data was available in the transaction |
| SyncRead.QueueAll | vassar_feetech_servo_sdk/controller.py:188-191 | adds one sync-read parameter per motor, in order |
| SyncRead.FetchAll | vassar_feetech_servo_sdk/controller.py:202-217 | fetches every motor's data in order and collects the available ones |
| SyncRead.GroupRead | vassar_feetech_servo_sdk/controller.py:181-228 | add per motor, txRx, on success getData per motor, clearParam last; positions only on success, only of requested motors |
| Controller.ServoController.ReadPositions | vassar_feetech_servo_sdk/controller.py:159-228 | not connected raises; otherwise a group read of the given ids or the configured ones, with only those ids in the result |
| Controller.CheckMiddle | vassar_feetech_servo_sdk/controller.py:303-319 | all-good iff every read position is within ±10 of 2048 |
| Controller.SilentReadBackPasses | vassar_feetech_servo_sdk/controller.py:303-321 | when the read-back transaction went through but no servo's data was available, the reading is empty and the verification answers True |
| Controller.CalibrateAll | vassar_feetech_servo_sdk/controller.py:253-268 | sends one offset calibration per motor and succeeds iff every one succeeded with no servo error |
| Controller.QueueMiddleCommand | vassar_feetech_servo_sdk/controller.py:277-284 | queues 128 per motor and stops at the first refused motor |
| Controller.ServoController.SetMiddlePosition | vassar_feetech_servo_sdk/controller.py:230-321 | not connected raises; HLS calibrates then verifies; STS queues, sync-writes, clears and verifies; each failure raises its CommunicationError |
| Controller.ServoController.MiddleByCalibration | vassar_feetech_servo_sdk/controller.py:253-271 | the HLS branch: calibration of every motor, verification only when all succeeded |
| Controller.ServoController.MiddleBySyncWrite | vassar_feetech_servo_sdk/controller.py:273-297 | the STS branch: a refused parameter raises at once; otherwise sync write then verification |
| Controller.ServoController.SyncWriteMiddle | vassar_feetech_servo_sdk/controller.py:287-297 | a failed sync write raises; otherwise clears and verifies |
| Controller.ServoController.VerifyMiddle | vassar_feetech_servo_sdk/controller.py:303-321 | reads the motors back; the answer is whether all are near 2048, or the read's error |
| Controller.ModeStepsRelock | vassar_feetech_servo_sdk/controller.py:482-513 | after a successful unlock the EEPROM is always locked last; success iff the mode write went through |
| Controller.ServoController.SetOperatingMode | vassar_feetech_servo_sdk/controller.py:453-518 | not connected or mode outside 0..3 raises before any traffic; otherwise unlock, write mode, lock, answering as ModeSteps |
| Controller.ServoController.LockEepromSafe | vassar_feetech_servo_sdk/controller.py:443-451 | sends exactly one lock command |
| Controller.ConfirmedPadded | vassar_feetech_servo_sdk/controller.py:374 | "yes" in any case with surrounding whitespace confirms |
| Controller.IdChangeRelocks | vassar_feetech_servo_sdk/controller.py:382-441 | every ID change attempt ends by locking the EEPROM; success iff ping, unlock and ID write all succeeded |
| Controller.ServoController.SetMotorId | vassar_feetech_servo_sdk/controller.py:335-441 | range and equality checks raise before any traffic; an unconfirmed change returns False silently; otherwise the ping/unlock/write/lock steps |
| Controller.ServoController.ChangeId | vassar_feetech_servo_sdk/controller.py:382-441 | the exact request sequence and result of each ping/unlock/write failure and of success |
| Torque.Clamp | vassar_feetech_servo_sdk/controller.py:558-560 | the torque is clamped into [-1, 1] and unchanged inside it |
| Torque.ClampKeepsSign | vassar_feetech_servo_sdk/controller.py:558-560 | clamping keeps the sign and zero |
| Torque.Magnitude | vassar_feetech_servo_sdk/controller.py:564 | the magnitude is the floor of abs(torque)·3000/6.5, between 0 and 461 |
| Torque.Encode | vassar_feetech_servo_sdk/controller.py:558-568 | bit 15 is set iff the torque is negative; the low bits hold the clamped magnitude |
| Torque.EncodeFitsNineBits | vassar_feetech_servo_sdk/controller.py:564-568 | bits 9..14 of the word are always zero |
| Torque.EncodeNegation | vassar_feetech_servo_sdk/controller.py:564-568 | negating a positive torque only sets the direction bit |
| Torque.DirectionBitSeparate | vassar_feetech_servo_sdk/controller.py:566 | setting bit 15 on a magnitude below 512 does not disturb the magnitude |
| Controller.WroteTorqueAppend | vassar_feetech_servo_sdk/controller.py:594-600 | a torque write succeeded in a joined trace iff it did in either part |
| Controller.TorqueTurnsSeparate | vassar_feetech_servo_sdk/controller.py:555-604 | one motor's steps never change another motor's torque outcome |
| Controller.ServoController.EnsureTorqueMode | vassar_feetech_servo_sdk/controller.py:571-584 | reads the mode; mode 2 is ready; a failed read is not; otherwise switches by set_operating_mode |
| Controller.ServoController.EnableAndWriteTorque | vassar_feetech_servo_sdk/controller.py:587-600 | sends exactly the torque-enable read, a write of 1 to register 40 iff that read succeeded with a value other than 1, then the goal-torque word to register 44; success iff the servo accepted that word |
| Controller.ServoController.WriteTorqueOne | vassar_feetech_servo_sdk/controller.py:571-604 | one motor's turn: the mode check, ending the turn with False and nothing written after a failed mode read or mode switch, otherwise followed by the enable-and-write steps, whose answer is the turn's |
| Controller.EnableWriteShape | vassar_feetech_servo_sdk/controller.py:587-600 | the enable-and-write steps go to one servo, the goal word is their only two-byte write and comes last, and the answer is whether the servo accepted it |
| Controller.TurnShape | vassar_feetech_servo_sdk/controller.py:571-604 | a motor's turn talks to that motor only, and its answer is True iff the servo accepted the goal-torque word |
| Controller.TurnAfterModeRead | vassar_feetech_servo_sdk/controller.py:571-585 | a turn starts with the mode read; a failed read is the whole turn and answers False; torque mode goes straight on to enable and write; any other mode is switched first, and a failed switch ends the turn with False |
| Controller.TurnsCarryTraffic | vassar_feetech_servo_sdk/controller.py:555-571 | every motor takes a turn that starts with its own mode read, so there is at least one exchange per motor |
| Controller.TurnsStep | vassar_feetech_servo_sdk/controller.py:555-604 | one more motor's turn is appended after the earlier ones, in the order of the torque list |
| Controller.AnswersStep | vassar_feetech_servo_sdk/controller.py:555-604 | each motor's entry in the result is its own turn's answer, and later motors do not change earlier entries |
| Controller.TorqueResultsStep | vassar_feetech_servo_sdk/controller.py:555-604 | after one more motor's turn, the answers cover exactly the motors seen so far, each True iff its own word was accepted, with traffic only to those motors |
| Controller.ServoController.WriteTorque | vassar_feetech_servo_sdk/controller.py:520-606 | not connected or not HLS raises with no traffic; otherwise the traffic is one turn per motor in the given order, each motor's answer is its own turn's, and True iff its encoded torque was accepted |
| Controller.ServoController.ReadVoltage | examples/teleoperation.py:55 | one voltage request; the answer is its measurement |
| Controller.ServoController.WritePosition | examples/teleoperation.py:76 | one position command carrying the positions, speed and acceleration |
| Controller.ServoController.JointLimitCalibration | examples/teleoperation_with_joint_limits.py:53 | one calibration command |
| Controller.ServoController.ReadPositionsContinuous | vassar_feetech_servo_sdk/cli.py:139-142 | one continuous-read command at the given frequency |
| Endings.ExitStatusOfEnding | vassar_feetech_servo_sdk/cli.py:144-154 | the process exits 0 iff it did not end by an exception |
| Endings.EndingOf | vassar-feetech-servo-sdk/vassar_feetech_servo_sdk/cli.py:125-137 | a run that passed returns normally; a failed one raises its error |
| ControllerCli.SetMiddleStatus | vassar_feetech_servo_sdk/cli.py:121-124 | set-middle exits 0 iff the middle position was verified, 1 otherwise |
| ControllerCli.ResolvedPortConfigures | vassar_feetech_servo_sdk/cli.py:103-118 | resolving the port in the CLI first builds the same controller as letting the constructor resolve it |
| ControllerCli.RunMain | vassar_feetech_servo_sdk/cli.py:98-154 | a bad id list raises ValueError and a missing port PortNotFoundError, both before any traffic; otherwise the bus carries exactly a `Runs` trace of the configured controller |
| ControllerCli.RunsLeavePortClosed | vassar_feetech_servo_sdk/cli.py:118-154 | in every run the first request opens the port and the last one closes it exactly when it opened; a run that connected disabled every servo's torque, in order, just before closing |
| ControllerCli.SetMiddleExit | vassar_feetech_servo_sdk/cli.py:121-124 | `--set-middle` exits 0 iff the port opened and set_middle_position answered True; such an HLS run calibrated every servo and read back positions near 2048 |
| ControllerCli.ConnectAndRun | vassar_feetech_servo_sdk/cli.py:118-154 | the bus carries the opening, the command and the closing of a `Runs` trace: a failed connection raises its error with nothing after it; otherwise the command ends as it dictates and the controller is disconnected last |
| ControllerCli.RunCommand | vassar_feetech_servo_sdk/cli.py:120-142 | the command's traffic is set_middle_position's steps for the type, one group read, or one continuous-read command; set-middle exits by its answer, a failed single read raises its error |
| Pacing.LoopTime | vassar-feetech-servo-sdk/vassar_feetech_servo_sdk/reader.py:232 | the loop period is 1/frequency; frequency 0 raises ZeroDivisionError |
| Pacing.SleepDuration | vassar-feetech-servo-sdk/vassar_feetech_servo_sdk/reader.py:249-251 | sleeps exactly when the iteration was shorter than the period, and then for the rest of it |
| Pacing.IterationLength | vassar-feetech-servo-sdk/vassar_feetech_servo_sdk/reader.py:249-251 | every paced iteration lasts at least one period, and exactly one when it was shorter |
| ReadLoop.RoundDelivers | vassar-feetech-servo-sdk/vassar_feetech_servo_sdk/reader.py:235-251 | a successful round adds its positions as a frame and its sleep |
| ReadLoop.RoundFails | vassar-feetech-servo-sdk/vassar_feetech_servo_sdk/reader.py:235-239 | a failed group read ends the loop with its CommunicationError |
| ReadLoop.RunCompletes | vassar-feetech-servo-sdk/vassar_feetech_servo_sdk/reader.py:234-254 | running out of iterations is the interrupt and ends the loop normally |
| ReadLoop.PacedRunFrames | vassar-feetech-servo-sdk/vassar_feetech_servo_sdk/reader.py:234-254 | every frame holds requested motors only and every iteration lasts at least one period |
| Reader.ReaderServoTypes | vassar-feetech-servo-sdk/vassar_feetech_servo_sdk/reader.py:92-99 | the reader accepts sms_sts, hls and scscl, each with its own protocol, and refuses "sts" |
| Reader.NewServoReader | vassar-feetech-servo-sdk/vassar_feetech_servo_sdk/reader.py:60-76 | a new reader has the resolved port, baud rate and lower-cased type, no handlers, disconnected |
| Reader.ServoReader.constructor | vassar-feetech-servo-sdk/vassar_feetech_servo_sdk/reader.py:70-76 | the fields as the constructor sets them |
| Reader.ServoReader.Connect | vassar-feetech-servo-sdk/vassar_feetech_servo_sdk/reader.py:78-110 | a no-op when connected; an unknown type raises ValueError before any traffic; otherwise opens the port; connected iff that passed |
| Reader.ServoReader.Disconnect | vassar-feetech-servo-sdk/vassar_feetech_servo_sdk/reader.py:112-116 | when connected, only closes the port; ends disconnected |
| Reader.ServoReader.ReadPosition | vassar-feetech-servo-sdk/vassar_feetech_servo_sdk/reader.py:118-147 | not connected raises; otherwise one ReadPos with the same outcome rule as the controller |
| Reader.ServoReader.ReadPositions | vassar-feetech-servo-sdk/vassar_feetech_servo_sdk/reader.py:149-215 | not connected raises; otherwise one group read of exactly the given motors |
| Reader.ServoReader.ReadPositionsContinuous | vassar-feetech-servo-sdk/vassar_feetech_servo_sdk/reader.py:217-254 | connects first when needed, stops on a failed connection or zero frequency, then reads in a paced loop until interrupted |
| Reader.ServoReader.PacedReads | vassar-feetech-servo-sdk/vassar_feetech_servo_sdk/reader.py:234-254 | the paced loop: one group read per iteration, each followed by its sleep |
| Reader.ServoReader.PacedRound | vassar-feetech-servo-sdk/vassar_feetech_servo_sdk/reader.py:236-251 | one iteration either adds a frame or ends the loop with the read's error |
| ReaderCli.ReaderMain | vassar-feetech-servo-sdk/vassar_feetech_servo_sdk/cli.py:89-140 | a bad id list or missing port raises before any traffic; otherwise the bus carries exactly a `ReaderRuns` trace of the reader with the lower-cased type |
| ReaderCli.ConnectAndRead | vassar-feetech-servo-sdk/vassar_feetech_servo_sdk/cli.py:107-140 | the bus carries the connect, the command and the closing of a `ReaderRuns` trace; the reader ends disconnected |
| ReaderCli.ReaderRunsLeavePortClosed | vassar-feetech-servo-sdk/vassar_feetech_servo_sdk/cli.py:107-140 | nothing is sent iff the servo type is unknown; otherwise the first request opens the port and the last closes it exactly when it opened |
| ReaderCli.ContinuousExit | vassar-feetech-servo-sdk/vassar_feetech_servo_sdk/cli.py:125-140 | continuous reading exits 0 iff the port opened, the frequency is not zero and no read failed; it then shows one reading of requested motors per iteration, each lasting at least the period |
| ReaderCli.ReadCommand | vassar-feetech-servo-sdk/vassar_feetech_servo_sdk/cli.py:111-128 | one group read of the given motors, whose failure raises, or the paced loop at 1/hz, with ZeroDivisionError and no traffic for hz 0 |
| Teleop.Roles | examples/teleoperation.py:55-65 | the two arms are split between leader and follower; the first arm leads iff its voltage is below 9.0 V |
| Teleop.RolesSplit | examples/teleoperation.py:58-65 | with two distinct arms, leader and follower differ and the first arm is the follower iff its voltage is at least 9.0 V |
| Teleop.ListedPortsNamed | examples/teleoperation.py:40-51 | every port the script would open has a non-empty name |
| Teleop.DisableThenClose | vassar_feetech_servo_sdk/controller.py:120-126 | a disconnect disables each servo in order and then closes the port |
| Teleop.Enter | examples/teleoperation.py:53 | the first arm connects; only when it did does the second; when the second fails the first is disconnected again; the outcome is the first failure |
| Teleop.WithReleasesBoth | examples/teleoperation.py:53-84 | each line's first request opens its port and its last closes it exactly when it opened; the second line carries nothing iff the first arm failed to connect |
| Teleop.DisconnectRequests | vassar_feetech_servo_sdk/controller.py:120-126 | a connected controller's disconnect sends one torque-disable write per servo, then closes the port |
| Teleop.Leave | examples/teleoperation.py:53 | leaving the `with` block disconnects both arms |
| Teleop.Mirror | examples/teleoperation.py:68-84 | each paced round reads the leader and writes exactly those positions to the follower |
| Teleop.MirrorRead | examples/teleoperation.py:75 | one leader read either adds a frame or ends the loop with its error |
| Teleop.MirrorWrite | examples/teleoperation.py:76 | one follower write of the frame just read |
| Teleop.Session | examples/teleoperation.py:55-84 | the first arm carries the voltage read first; the arm below 9.0 V is read by the paced loop and the other receives exactly the frames read |
| Teleop.MirrorCopies | examples/teleoperation.py:70-84 | every follower command is a plain position write of the leader reading of the same iteration, only of leader servos; one command per iteration iff no read failed |
| Teleop.TeleopRefused | examples/teleoperation.py:53 | an arm that failed to connect makes the block raise its error with no body traffic |
| Teleop.TeleopEntered | examples/teleoperation.py:53-84 | with both arms connected the block runs the session and ends as its loop did |
| Teleop.TeleopRunsEnd | examples/teleoperation.py:53-84 | the script exits 0 iff both arms connected and no leader read failed; the follower then got one copy per iteration |
| Teleop.Block | examples/teleoperation.py:55-84 | inside a block both arms entered: the session's traffic, then both disconnects, and the loop's ending |
| Teleop.PastEntry | examples/teleoperation.py:53-84 | after entry: a failed entry raises with no body; otherwise the block; either way the traffic is a `TeleopRuns` trace |
| Teleop.WithBoth | examples/teleoperation.py:53-84 | both arms end disconnected and the two lines carry exactly a `TeleopRuns` trace: entry, body and release, ending by the failed entry's error or the loop's outcome |
| Teleop.TeleopMain | examples/teleoperation.py:32-84 | fewer than two ports returns without traffic; otherwise two STS controllers with ids 1..6 at 1 Mbaud on the first two sorted ports, whose lines carry a `TeleopRuns` trace |
| TeleopJointLimits.SyncCheck | examples/teleoperation_with_joint_limits.py:66-69 | a motor missing from the target raises KeyError; otherwise synchronised iff every motor is within 20 ticks |
| TeleopJointLimits.SyncAtTarget | examples/teleoperation_with_joint_limits.py:66-69 | a follower exactly at the target is synchronised |
| TeleopJointLimits.EmptyReadingSyncs | examples/teleoperation_with_joint_limits.py:66-69 | an empty reading counts as synchronised |
| TeleopJointLimits.SyncSymmetric | examples/teleoperation_with_joint_limits.py:66-69 | over the same motors the check is symmetric in leader and follower |
| TeleopJointLimits.SyncRunEnds | examples/teleoperation_with_joint_limits.py:60-71 | the wait ends synchronised only after a passing check before the timeout, times out only when the clock passed 5 s, and otherwise raises KeyError or the read's error |
| TeleopJointLimits.PollFollower | examples/teleoperation_with_joint_limits.py:60-71 | the wait loop's traffic and outcome are a SyncRun |
| TeleopJointLimits.Poll | examples/teleoperation_with_joint_limits.py:66-69 | one poll reads the follower and returns the check's verdict |
| TeleopJointLimits.PollPasses | examples/teleoperation_with_joint_limits.py:66-71 | an unsynchronised poll keeps the wait going |
| TeleopJointLimits.PollStops | examples/teleoperation_with_joint_limits.py:66-71 | a synchronised or failing poll ends the wait with that outcome |
| TeleopJointLimits.Follow | examples/teleoperation_with_joint_limits.py:53-90 | calibrate, read the leader, move the follower there at speed 100 and acceleration 10, wait for sync, then mirror |
| TeleopJointLimits.FollowRun | examples/teleoperation_with_joint_limits.py:53-90 | the leader carries the first read and the loop's reads, the follower the calibration, the slow move, the polls and the copies, all as `Follows` relates them |
| TeleopJointLimits.FollowEnds | examples/teleoperation_with_joint_limits.py:53-90 | the follow phase raises only the group read's error or KeyError; copies happen only after the slow move to the first reading and a wait that ended without error; a run reaching Ctrl+C copied once per iteration |
| TeleopJointLimits.LimitRefused | examples/teleoperation_with_joint_limits.py:38 | an arm that failed to connect makes the block raise its error with no body traffic |
| TeleopJointLimits.LimitEntered | examples/teleoperation_with_joint_limits.py:38-90 | with both arms connected the block runs the session and ends as it did |
| TeleopJointLimits.LimitRunsEnd | examples/teleoperation_with_joint_limits.py:38-90 | the script exits 0 iff both arms connected and the follow phase reached Ctrl+C, after the slow move and the wait |
| TeleopJointLimits.LimitSession | examples/teleoperation_with_joint_limits.py:40-90 | each arm carries its voltage read first; the first voltage alone picks the roles; the rest of each line is the `Follows` traffic of its role |
| TeleopJointLimits.Block | examples/teleoperation_with_joint_limits.py:40-90 | inside a block both arms entered: the session's traffic, then both disconnects, and the session's ending |
| TeleopJointLimits.PastEntry | examples/teleoperation_with_joint_limits.py:38-90 | after entry: a failed entry raises with no body; otherwise the block; either way the traffic is a `LimitRuns` trace |
| TeleopJointLimits.WithBoth | examples/teleoperation_with_joint_limits.py:38-90 | both arms end disconnected and the two lines carry exactly a `LimitRuns` trace, ending by the failed entry's error or the session's outcome |
| TeleopJointLimits.DiscoveryAsWritten | examples/teleoperation_with_joint_limits.py:21-30 | the discovery call as written always raises TypeError |
| TeleopJointLimits.AsWrittenNeverStarts | examples/teleoperation_with_joint_limits.py:21-30 | as written, the script never gets past port discovery |
| TeleopJointLimits.AllServoPorts | examples/teleoperation_with_joint_limits.py:22 | the intended discovery lists every qualifying port |
| TeleopJointLimits.PortsGate | examples/teleoperation_with_joint_limits.py:21-30 | the script goes on iff discovery succeeded with at least two ports, using the first two |
| TeleopJointLimits.IntendedGate | examples/teleoperation_with_joint_limits.py:21-30 | with the intended discovery the script starts iff two ports qualify, and the first is the one find_servo_port returns |
| TeleopJointLimits.JointLimitsMain | examples/teleoperation_with_joint_limits.py:12-90 | no pair of ports returns without traffic; otherwise an HLS leader and an STS follower with ids 1..7 at 1 Mbaud whose lines carry a `LimitRuns` trace |
| LeaderPositions.ScriptPort | read_leader_positions.py:98 | a given port is used; otherwise find_port |
| LeaderPositions.ScriptPortAgrees | read_leader_positions.py:98 | the script finds a port iff the package does, the same one; it raises RuntimeError where the package raises PortNotFoundError |
| LeaderPositions.Lenient | read_leader_positions.py:46-84 | the script's read equals the package's on success and is empty on a failed transaction |
| LeaderPositions.LenientKeys | read_leader_positions.py:68-84 | a motor appears iff the transaction succeeded and its data was available |
| LeaderPositions.ReadPositions | read_leader_positions.py:46-84 | one group read of the motors, never raising |
| LeaderPositions.ReadingStep | read_leader_positions.py:116-140 | each iteration adds its frame and its sleep |
| LeaderPositions.ReadingFrames | read_leader_positions.py:116-140 | every frame holds requested motors only, is empty or the package's result, and every iteration lasts a period |
| LeaderPositions.ReadingRound | read_leader_positions.py:120-140 | one paced iteration |
| LeaderPositions.ReadUntilInterrupted | read_leader_positions.py:116-142 | reads once per iteration until interrupted; a failed read never ends the loop |
| LeaderPositions.ReadAndClose | read_leader_positions.py:114-145 | hz 0 raises ZeroDivisionError; otherwise reads until interrupted; the port is closed last either way |
| LeaderPositions.OpenAndRead | read_leader_positions.py:103-145 | a failed open or baud rate returns quietly; otherwise reads and closes |
| LeaderPositions.LeaderMain | read_leader_positions.py:87-145 | a bad id raises its ValueError, a missing port RuntimeError, both before any traffic; otherwise the session |
| FeetechUtils.ReadingsKeys | feetech_utils.py:45-57 | a motor has a position iff it was requested and one of its reads went through |
| FeetechUtils.ReadingsValue | feetech_utils.py:50-56 | a motor's position is the value of its last accepted read |
| FeetechUtils.ReadPositions | feetech_utils.py:45-57 | one two-byte read of address 56 per motor in order; only requested motors in the result |
| HlsPackets.StoresSeven | dev-example/scservo_sdk_official/hls.py:88-91 | a seven-byte block stores its bytes at seven consecutive registers |
| HlsPackets.GoalPacket | dev-example/scservo_sdk_official/hls.py:65-68 | the position command is seven bytes that set acceleration, goal position, goal torque and goal speed |
| HlsPackets.SyncWriteCoversGoal | dev-example/scservo_sdk_official/hls.py:63 | the sync-write block starting at register 41, seven long, covers exactly registers 41..47 |
| HlsPackets.WritePosEx | dev-example/scservo_sdk_official/hls.py:65-68 | writes the goal registers of the addressed servo, with the position passed through `scs_tohost` on bit 15 |
| HlsPackets.SyncWritePosEx | dev-example/scservo_sdk_official/hls.py:88-91 | queues the same seven goal registers for the addressed servo |
| HlsPackets.RegWritePosEx | dev-example/scservo_sdk_official/hls.py:93-96 | registers the same goal write for the addressed servo |
| HlsPackets.PositionCommandsAgree | dev-example/scservo_sdk_official/hls.py:65-96 | the direct, sync and registered position commands carry identical data |
| HlsPackets.WriteSpec | dev-example/scservo_sdk_official/hls.py:104-107 | writes acceleration, zero goal position, torque and the speed in sign-magnitude |
| HlsPackets.SpecKeepsAccelerationAndTorque | dev-example/scservo_sdk_official/hls.py:104-107 | WriteSpec covers the same registers as WritePosEx, with the same acceleration and torque and a zero position |
| HlsPackets.LockEprom | dev-example/scservo_sdk_official/hls.py:109-110 | writes 1 to the lock register 55 |
| HlsPackets.UnlockEprom | dev-example/scservo_sdk_official/hls.py:112-113 | writes 0 to the lock register 55 |
| HlsPackets.LockUnlockSameRegister | dev-example/scservo_sdk_official/hls.py:109-113 | lock and unlock touch only register 55, with different values |
| HlsPackets.WheelMode | dev-example/scservo_sdk_official/hls.py:101-102 | writes 1 to the mode register 33 |
| HlsPackets.ReadPosRequest | dev-example/scservo_sdk_official/hls.py:70-72 | reads the two present-position registers 56..57 |
| HlsPackets.ReadPos | dev-example/scservo_sdk_official/hls.py:70-72 | the position is the word decoded with sign bit 15; communication result and error passed through |
| HlsPackets.ReadPosSpeedRequest | dev-example/scservo_sdk_official/hls.py:78-82 | reads the four registers 56..59 of position and speed |
| HlsPackets.ReadPosSpeed | dev-example/scservo_sdk_official/hls.py:78-82 | position from the low word and speed from the high word, each decoded with sign bit 15 |
| HlsPackets.PosSpeedExtendsPos | dev-example/scservo_sdk_official/hls.py:70-82 | the combined read covers strictly more registers and yields the same position as ReadPos |

## Left out

- Serial I/O: the port handler, packet framing and checksums live in `scservo_sdk`, which is not part of this model. Each request and its reply is one exchange on `Bus.Bus`, and the replies come from an oracle.
- `hls.py`'s byte helpers: `SCS_LOBYTE`, `SCS_HIBYTE`, `SCS_LOWORD`, `SCS_HIWORD`, `SCS_TOHOST` and `SCS_TOSCS` are defined in the protocol base class, which is not part of this model. They are uninterpreted functions (`HlsPackets.Helpers`), so the model proves which registers each command touches but not the bit layout of sign-magnitude values.
- `hls.py`'s `ReadSpeed`, `ReadMoving` and `RegAction` are each a single read or broadcast with no logic of their own.
- read_voltage, write_position, joint_limit_calibration and read_positions_continuous on the controller: the scripts call them, but the controller shown does not define them. They are single abstract commands on the bus (`Controller.ServoController.ReadVoltage` and its siblings).
- Controller.ServoController.WritePosition: the speed and acceleration defaults the scripts pass are recorded, but not how the servo applies them.
- Time: `time.sleep`, `time.time` and `time.perf_counter` are replaced by parameters. Sleeps are computed (`Pacing.SleepDuration`) but not performed. The fixed sleeps after calibration, sync write, mode change and disable are left out.
- Console output: every `print`, the `_display_positions` screen and the progress percentages in the scripts have no effect on the model.
- Argument parsing: `argparse` is not modelled. The parsed options are parameters of each `main`.
- KeyboardInterrupt: it is modelled only between loop iterations, as the end of the `elapsed` sequence. An interrupt in the middle of a bus exchange is not.
- TeleopJointLimits.PollFollower: the clock readings must reach the 5 s timeout within the given sequence. The unbounded wait is bounded by the supplied readings.
- Set-motor-id confirmation: `input()` is the parameter `answer`.
- `__del__` finalisers, which disconnect on garbage collection, are left out because the model has no collection.
- read_all_positions (controller.py:323-330) is a one-line alias of read_positions with all configured servos.
- Controller.ServoController.Connect: the "Unknown servo type" branch (controller.py:106-107) cannot be reached because the constructor already refused the type, so it is not modelled.
- Exceptions raised inside the scservo library, caught by the `except Exception` blocks of set_operating_mode, write_torque and disable_all_servos: the oracle never raises, so those handlers are not modelled.
- The double lock on a failed ID write: set_motor_id locks the EEPROM at line 409 and again in its handler at line 440. The model keeps both locks in the request sequence (`Controller.IdChangeSteps`).
- Text.Lower: lowers the ASCII capitals A-Z only. Python's `str.lower` also lowers non-ASCII capitals, and a few of those change the string's length (İ becomes two code points). Only the results "sts" and "hls" matter to the callers. The only non-ASCII capitals that lower into ASCII are the Kelvin sign (to k) and İ (to i and a combining dot), so no non-ASCII text lowers to either.
- MotorIds.IntOf: accepts an optional sign and ASCII digits only. Python's `int()` also accepts underscores between digits ("1_0" is 10) and non-ASCII decimal digits. Those ids are refused by the model and accepted by the source.
- Floating point: Python floats are modelled as exact reals. This affects the torque magnitude `int(abs(t) * (3000 / 6.5))` (`Torque.Magnitude`), the loop period `1.0 / frequency` and the sleep left in an iteration (`Pacing`), the 9.0 V threshold (`Teleop.Roles`), and the 5 s timeout of the sync wait (`TeleopJointLimits.TimedOutAt`). Rounding at a boundary, such as a product landing just below an integer, can differ from the source.
- FeetechUtils.ReadPositions: `feetech_utils.py:50` calls `read2ByteTxRx(port_handler, motor_id, PRESENT_POSITION)` with the port handler as its first argument. The bundled `hls.py:71` calls `read2ByteTxRx(scs_id, address)` with two arguments, so with that packet handler the three-argument call would raise TypeError. The model assumes a packet handler that takes the port handler first, and models the read as written. The TypeError is not modelled.

## Findings

| source | as written | input that shows it | evidently intended | confidence | as-written member | corrected member |
|---|---|---|---|---|---|---|
| examples/teleoperation_with_joint_limits.py:22 | calls `find_servo_port(return_all=True)`, but the package's `find_servo_port()` (controller.py:17) takes no arguments, so the call raises TypeError. The `except Exception` at line 28 catches it and main returns at line 30. | any platform and any device list, including two connected arms | list every qualifying port in the order the devices are listed, which is `find_servo_port`'s filter without its stop at the first match, and continue with the first two. `find_servo_ports()` in teleoperation.py also sorts the list, which is not assumed here. | high; not executed | TeleopJointLimits.AsWrittenNeverStarts | TeleopJointLimits.IntendedGate |
