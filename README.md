# RobotBrain servo stack, modelled in Dafny

A model of the part of RobotBrain that drives a 25-servo humanoid over a serial servo bus. It covers five pieces:

- **The bus session manager** (`UartServoManager`, with its per-servo record `UartServoInfo`). It builds request frames and exchanges them with a retry budget. It scans ids, reads and writes named registers, and builds the three kinds of position write: a direct write, a register write followed by an action broadcast, and one broadcast sync write. It also polls servos until they settle or stall, and keeps diagnostics counters.
- **The balance corrector** (`BalanceController`). It completes the neutral pose, turns an IMU orientation into clamped per-servo targets, and runs one pass of the periodic loop.
- **The motion controller** (`MotionController`). It filters targets to the known servos and fuses them with the balance output. It sends one sync write per step, and provides the named poses and gaits plus `run_action`'s name dispatch.
- **The application facade** (`ServoBus`). It has a mock mode, a sync move that falls back to per-servo writes plus an action broadcast, a torque switch, a status read, and close.
- **The test bench's id-list parser** (`parse_id_list`).

The model has one Dafny module per source concern:

- `PyBase`: Python's `Option`, exceptions as `Result`, and `int()` on floats.
- `OrderedDict`: dictionaries whose iteration order reaches the wire.
- `Wire`: struct formats, frames and replies.
- `Transport`: the serial port as a script of receive windows.
- `ServoState`: `UartServoInfo`.
- `UartServo`: the manager.
- `BalanceCtrl`, `MotionCtrl` (with `ActionNames` for the action-name normalisation), `Bus` and `IdList` model the other four pieces.

How the model represents the source:

- **Objects**: those whose fields the code updates are classes: the port, the servo records, the manager, the balance controller, the motion controller and the bus facade. Their methods state what they write, what they consume of the scripted replies, and the new records, each against a function of the inputs.
- **Loops**: the code's step-by-step loops are methods with loop invariants. Each method is specified by a function, and the source's promises are proved about those functions as lemmas. Examples are the sync payload, the scan, the neutral completion, the balance adjustments, the target filter, the fallback writes and the id-list loop.
- **Exceptions**: Python exceptions that change behaviour are `Raised(...)` results. This covers `KeyError`, `struct.error` for out-of-range values, `IndexError`, `TypeError` from `None` arithmetic or a shadowed `is_stop`, `ValueError` from `int()` or from a negative `time.sleep`, and `ZeroDivisionError`.
- **Serial link**: the serial device is a scripted port. Each receive window takes the next scripted reply, or silence.
- **Balance fusion**: `_send_targets` is modelled as written. It subtracts the neutral value once and adds it back twice, so a servo at its neutral position with no correction is sent `pose + neutral`. `FuseAddsNeutralTwice` states this, and `FuseMidPositionSaturates` shows a mid-position servo reaching 4095.

## Model

| member | source | states |
|---|---|---|
| PyBase.Trunc | services/motion_controller.py:196 | `int()` of a float truncates toward zero: the result is within one of x, on x's side of zero |
| PyBase.TruncOfInt | services/motion_controller.py:56 | `int()` of a float holding an integer gives that integer |
| PyBase.Repeat | services/balance_ctrl.py:108 | `[x] * k`: k entries, each equal to x; the retry loop's k copies of one frame and the sync writes' runtime lists are both this |
| PyBase.RepeatSnoc | services/uart_servo.py:266-270 | one more retry writes one more copy of the frame |
| OrderedDict.Dict.Get | services/motion_controller.py:79 | `d.get(k, default)`: the stored value when k is present, else the default |
| OrderedDict.Dict.Set | services/balance_ctrl.py:11 | assigning a key keeps its iteration position, and a new key goes last; well-formedness is kept |
| Wire.U16BE | services/uart_servo.py:379 | `'>H'` gives two bytes, high byte first, whose value is x |
| Wire.Pack | services/uart_servo.py:358 | `struct.pack` succeeds exactly when the value fits the format, and gives `calcsize` bytes |
| Wire.Unpack | services/uart_servo.py:350 | `struct.unpack` succeeds exactly when the byte count is the format's size, and its value fits the format |
| Wire.PackThenUnpack | services/uart_servo.py:350-358 | unpacking a packed value gives the value back |
| Wire.UnpackThenPack | services/uart_servo.py:350-358 | packing an unpacked value gives the bytes back |
| Transport.Port.Write | services/uart_servo.py:258 | a write appends exactly one frame and consumes no reply |
| Transport.Port.ReceiveWindow | services/uart_servo.py:221-246 | one receive window yields the next scripted reply, or None, and consumes it |
| Transport.Port.Close | services/servo_bus.py:27 | closing marks the port closed and changes nothing else |
| Transport.Port.constructor | services/servo_bus.py:11 | an open port with the given replies and nothing written |
| ServoState.PositionToAngle | services/uart_servo.py:70-72 | positions 0..4095 map into [-180, 180), and 2048 maps to 0 degrees |
| ServoState.AngleToPosition | services/uart_servo.py:74-76 | `angle2position` is a right inverse of `position2angle` |
| ServoState.PositionAngleRoundTrip | services/uart_servo.py:70-76 | `angle2position(position2angle(p)) == p` |
| ServoState.StallCheckDeadBand | services/uart_servo.py:47-49 | within the one-degree dead band (11 position steps) the servo counts as stopped and the sample is kept |
| ServoState.StallCheckStartsTimer | services/uart_servo.py:51-53 | the first check outside the dead band records the error and the time, and reports moving |
| ServoState.StallCheckProgressRestartsTimer | services/uart_servo.py:58-60 | an error that changed by more than 0.2 degrees restarts the timer and reports moving |
| ServoState.StallCheckTimesOut | services/uart_servo.py:62-66 | no progress for more than one second counts as stopped and clears the sample |
| ServoState.UartServoInfo.constructor | services/uart_servo.py:23-39 | a new record is offline, has no positions, status 0 and no sample |
| ServoState.UartServoInfo.Move | services/uart_servo.py:87-90 | sets the target position and nothing else |
| ServoState.UartServoInfo.Update | services/uart_servo.py:92-94 | sets the current position and nothing else |
| ServoState.UartServoInfo.IsStop | services/uart_servo.py:41-68 | raises TypeError when `is_stop` was overwritten by a flag or a position is None; otherwise applies one stall check |
| UartServo.GetLegalPosition | services/uart_servo.py:361-368 | clamps to 0..4095: values in range are kept, values above give 4095, values below give 0 |
| UartServo.LegalPositionIdempotent | services/uart_servo.py:361-368 | clamping twice is clamping once |
| UartServo.AngToPos | services/uart_servo.py:545-546 | `ang2pos` is the record's angle-to-position map |
| UartServo.PackBhh | services/uart_servo.py:379 | `'>BHH'` packs into five bytes |
| UartServo.PackBhhDecodes | services/uart_servo.py:379 | the five bytes decode back to the id, position and runtime |
| UartServo.FirstUnpackable | services/uart_servo.py:392-400 | the index of the first entry the loop cannot pack (or the list length): every entry before it packs, it does not |
| UartServo.SyncPayload | services/uart_servo.py:390-400 | the sync body is the `2A 04` header plus five bytes per servo |
| UartServo.SyncBody | services/uart_servo.py:392-400 | five bytes per packed entry |
| UartServo.SyncTargets | services/uart_servo.py:392-400 | one decoded entry per packed servo |
| UartServo.SyncTargetsSnoc | services/uart_servo.py:392-400 | packing one more entry appends its decoded target, and that entry packs |
| UartServo.ParseSyncBodySnoc | services/uart_servo.py:392-400 | parsing a body with one more five-byte entry appends that entry |
| UartServo.SyncProgressStep | services/uart_servo.py:392-400 | one loop pass appends the packed entry of the clamped position |
| UartServo.SyncProgressStops | services/uart_servo.py:392-400 | the loop stops at the first entry that cannot be packed |
| UartServo.SyncProgressDone | services/uart_servo.py:390-401 | a finished loop built exactly the sync payload |
| UartServo.SyncBodyDecodes | services/uart_servo.py:392-400 | the body parses back into the (id, clamped position, runtime) entries, in list order |
| UartServo.SyncPayloadDecodes | services/uart_servo.py:390-401 | the whole payload parses back into the list of targets |
| UartServo.Attempts | services/uart_servo.py:266-277 | an exchange makes at most `max(0, retry_ntime)` attempts |
| UartServo.ExchangeSilent | services/uart_servo.py:266-286 | with no reply in the budget the exchange fails after using the whole budget |
| UartServo.ExchangeAnsweredAt | services/uart_servo.py:266-277 | the first answered window ends the exchange, after that many attempts plus one |
| UartServo.ExchangeFailureSpendsBudget | services/uart_servo.py:278-286 | a failed exchange used the whole budget |
| UartServo.ExchangeAnswerConsumes | services/uart_servo.py:266-277 | an answered exchange consumed at least one and at most all scripted windows |
| UartServo.ExchangeStep | services/uart_servo.py:266-277 | one retry pass writes the frame once and reads the next window |
| UartServo.RecordedKeepsCounts | services/uart_servo.py:168-193 | recording a response keeps request = ok + fail for each bucket, only grows the counters, and adds the retries used |
| UartServo.AfterExchangeCountsWrites | services/uart_servo.py:266-285 | `total_retry_used` grows by exactly the frames the exchange wrote, and `wait_ok` grows exactly when it was answered |
| UartServo.ReadByName | services/uart_servo.py:337-351 | an unanswered or unasked read leaves the script alone; only an asked read can have an answer |
| UartServo.ReadValueConsumes | services/uart_servo.py:337-351 | a read that returned a value consumed a receive window |
| UartServo.Synced | services/uart_servo.py:240-242 | status sync on a reply changes no ids, and no core or flag fields |
| UartServo.StoppedAll | services/uart_servo.py:394-395 | clearing `is_stop` for a list of ids keeps the record set |
| UartServo.WithStopFlagAgrees | services/uart_servo.py:374 | setting one id's flag changes only that id's flag |
| UartServo.StoppedAllSnoc | services/uart_servo.py:392-395 | clearing flags for a list is clearing them one id after another |
| UartServo.SameCoresAsCores | services/uart_servo.py:394-395 | two record maps agree on ids, online and positions exactly when their core projections are equal |
| UartServo.AnsweredIdsSnoc | services/uart_servo.py:453-470 | the scanned-and-answered ids grow by the current id exactly when it answered |
| UartServo.AnsweredIds | services/uart_servo.py:453-463 | only scanned ids can be among the answered ones |
| UartServo.RegisteredSnoc | services/uart_servo.py:313-315 | one more pass appends its id exactly when it answered and was not listed |
| UartServo.RegisteredLists | services/uart_servo.py:313-315 | the old order is a prefix, the ids listed are the old ones plus the answering ones, and a distinct order stays distinct |
| UartServo.ScanStateStep | services/uart_servo.py:453-470 | one scan pass keeps the scan invariant |
| UartServo.UartServoManager.constructor | services/uart_servo.py:115-139 | a fresh manager has no records, diagnostics off and zeroed counters |
| UartServo.UartServoManager.EnableDiagnostics | services/uart_servo.py:143-145 | switches the counters on or off |
| UartServo.UartServoManager.DiagnosticsSnapshot | services/uart_servo.py:152-157 | the snapshot's counters are consistent: request = ok + fail for each bucket |
| UartServo.UartServoManager.RecordWaitResponse | services/uart_servo.py:168-193 | records one response when enabled, and does nothing otherwise |
| UartServo.UartServoManager.ReceiveResponse | services/uart_servo.py:221-246 | consumes one window and syncs the answering servo's status |
| UartServo.UartServoManager.Exchange | services/uart_servo.py:266-277 | writes the frame once per attempt, takes the first answer in the budget, and consumes exactly that many windows |
| UartServo.UartServoManager.SendRequest | services/uart_servo.py:248-286 | without waiting, sends one frame and reports success; when waiting, runs the exchange with the default budget of 10 and records it |
| UartServo.UartServoManager.SetStopFlag | services/uart_servo.py:374 | overwrites one record's `is_stop` |
| UartServo.UartServoManager.RetargetRecord | services/uart_servo.py:411-413 | a known id gets the new target and a cleared flag, and an unknown id changes nothing |
| UartServo.UartServoManager.MarkOffline | services/uart_servo.py:469-470 | a known id is marked offline and an unknown one is ignored |
| UartServo.UartServoManager.InstallOnline | services/uart_servo.py:462-463 | replaces the record with a fresh one marked online |
| UartServo.UartServoManager.SeedPosition | services/uart_servo.py:465-467 | sets the current and target position to the value read back |
| UartServo.UartServoManager.FindServo | services/uart_servo.py:288-302 | pings id 254 with a budget of `max(3, RETRY_NTIME)` and returns the answering id |
| UartServo.UartServoManager.Ping | services/uart_servo.py:304-318 | pings with that budget; an answering unknown id gets a new record appended in order, and nothing else changes |
| UartServo.UartServoManager.AddRecord | services/uart_servo.py:313-315 | appends a fresh record for a new id |
| UartServo.UartServoManager.ReadData | services/uart_servo.py:320-329 | raises `struct.error` for a non-byte address or length; otherwise one exchange, returning the reply's parameters or None |
| UartServo.UartServoManager.WriteData | services/uart_servo.py:331-335 | raises `struct.error` for a non-byte address; otherwise sends one WRITE frame and returns True |
| UartServo.UartServoManager.ReadDataByName | services/uart_servo.py:337-351 | None for an unknown name or no answer; otherwise the decoded value, with `struct.error` for a reply of the wrong size |
| UartServo.UartServoManager.WriteDataByName | services/uart_servo.py:353-359 | no frame for an unknown name, `struct.error` for a value the format refuses, else one WRITE frame |
| UartServo.UartServoManager.AsyncSetPosition | services/uart_servo.py:370-381 | clears the flag, then KeyError, `struct.error`, or one REG_WRITE frame of the clamped position |
| UartServo.UartServoManager.AsyncAction | services/uart_servo.py:383-386 | sends the one ACTION broadcast |
| UartServo.UartServoManager.SyncSetPosition | services/uart_servo.py:388-401 | succeeds exactly when every entry packs, then sends one SYNC_WRITE broadcast of the payload; otherwise raises the entry's error, sends nothing, and leaves flags cleared up to that entry |
| UartServo.UartServoManager.Reset | services/uart_servo.py:403-405 | sends one RESET frame |
| UartServo.UartServoManager.SetPositionTime | services/uart_servo.py:417-432 | runtime is `runtime_ms`, else `time_ms`, else 300; then KeyError, `struct.error`, or one WRITE frame of the clamped position |
| UartServo.UartServoManager.SetRuntimeMs | services/uart_servo.py:435-437 | the named write of RUNTIME_MS |
| UartServo.UartServoManager.GetTargetPosition | services/uart_servo.py:439-441 | the named read of TARGET_POSITION |
| UartServo.UartServoManager.GetPosition | services/uart_servo.py:443-445 | the named read of CURRENT_POSITION; records keep their cores and flags |
| UartServo.UartServoManager.GetVelocity | services/uart_servo.py:447-449 | the named read of CURRENT_VELOCITY |
| UartServo.UartServoManager.GetTemperature | services/uart_servo.py:533-535 | the named read of CURRENT_TEMPERATURE |
| UartServo.UartServoManager.GetVoltage | services/uart_servo.py:537-539 | the named read of CURRENT_VOLTAGE |
| UartServo.UartServoManager.SetMotorMode | services/uart_servo.py:499-501 | the named write of MOTOR_MODE |
| UartServo.UartServoManager.TorqueEnable | services/uart_servo.py:517-520 | writes TORQUE_ENABLE or TORQUE_DISABLE to one id |
| UartServo.UartServoManager.TorqueEnableAll | services/uart_servo.py:522-525 | writes the torque value to the broadcast id |
| UartServo.UartServoManager.SetTorqueUpperb | services/uart_servo.py:527-531 | the named write of TORQUE_UPPERB |
| UartServo.UartServoManager.DcStop | services/uart_servo.py:514-515 | writes speed 0 |
| UartServo.UartServoManager.DcRotate | services/uart_servo.py:503-512 | writes the direction, then the pwm clamped to 0..100; a raised first write stops it |
| UartServo.UartServoManager.SetPosition | services/uart_servo.py:407-415 | writes the clamped target by name; a refused value raises before anything changes; a known record gets the target and a cleared flag, an unknown id changes no record; with `is_wait`, an unknown id then raises KeyError after the write, and a known one then runs exactly the wait WaitFrom gives from the new target, ending flagged stopped when it returns normally |
| UartServo.UartServoManager.PollError | services/uart_servo.py:476-478 | the absolute difference of the read position and the target, with TypeError when either is None |
| UartServo.UartServoManager.Wait | services/uart_servo.py:472-491 | KeyError exactly for an unknown id, before anything is sent; for a known id the result, the frames written, the replies left, the counters and the records are those of WaitFrom on the script from the record's target, with `is_stop` set True exactly when it returns normally |
| UartServo.UartServoManager.WaitKnown | services/uart_servo.py:473-491 | the polling loop, counting error values in `angle_error_dict`, performs exactly the run WaitFrom gives for the script |
| UartServo.WaitKeepsRecords | services/uart_servo.py:473-491 | a wait changes no record's online flag, positions or `is_stop`; only the status bytes its reads copy in |
| UartServo.WaitOnlyReads | services/uart_servo.py:475-476 | a wait sends only READ frames to the waited id, and raises only TypeError (the subtraction with None) or `struct.error` (a reply of the wrong size) |
| UartServo.WaitEndsOnDecision | services/uart_servo.py:476-491 | the errors a wait polls extend the ones already seen, and a wait that returns ends on the decision its last error takes |
| UartServo.StillWaitingSnoc | services/uart_servo.py:479-491 | an error that neither settles nor stalls keeps every error polled outside the dead area and below 100 reads of its value |
| UartServo.StallIsExact | services/uart_servo.py:483-489 | a stall is the 100th read of its error value, not a later one |
| UartServo.WaitStopsFirst | services/uart_servo.py:473-491 | `wait` stops at the first poll whose error is below the dead area of 10 or is read for the 100th time; no earlier poll passed either test, and a raised wait passed neither |
| UartServo.WaitStopsAtOnce | services/uart_servo.py:475-491 | when the first poll settles, stalls or raises, the wait stops there, as WaitStopsFirst says |
| UartServo.WaitEndsHere | services/uart_servo.py:475-491 | when the first poll ends the wait, the run is that one read: its frames, the replies left, its status sync, its counters and its verdict |
| UartServo.WaitSilentRaises | services/uart_servo.py:475-476 | a position read with no answer in its 10 tries makes `abs(None - target)` raise TypeError, after 10 READ frames and no new error |
| UartServo.CountedStep | services/uart_servo.py:483-487 | the `angle_error_dict` update leaves each error value counted as often as it has been polled |
| UartServo.WaitStep | services/uart_servo.py:473-491 | a poll that does not end the wait moves the loop's view of the run on by its frames |
| UartServo.UartServoManager.WaitAll | services/uart_servo.py:493-497 | the result, the frames, the replies left, the counters and the records are exactly WaitAllFrom of the script over the insertion order; nothing but `is_stop` of online records changes, and when nothing raises every servo online at the start ends flagged stopped |
| UartServo.WaitAllNext | services/uart_servo.py:495-497 | an offline id is skipped; an online one is one `wait` run, whose exception ends `wait_all` and whose normal end sets the flag and goes on with the next id |
| UartServo.WaitAllStep | services/uart_servo.py:495-497 | a finished wait moves the loop's view of the run on by its frames |
| UartServo.WaitAllKeepsRecords | services/uart_servo.py:493-497 | a run keeps every online flag and position, changes `is_stop` only of online records and only to True, and on a normal end has set it True on every online id of the list |
| UartServo.WaitAllOnlyReads | services/uart_servo.py:493-497 | a run over listed ids sends only READ frames to online ids of the list and raises only TypeError or `struct.error` |
| UartServo.WaitAllOffline | services/uart_servo.py:496 | with every listed record offline, nothing is sent and nothing changes |
| UartServo.UartServoManager.Adopt | services/uart_servo.py:458-467 | `set_motor_mode`, then a fresh online record seeded with the value read back: result, frames, replies left and counters are AdoptWith of the script, and on success both positions equal the value read back |
| UartServo.UartServoManager.Seed | services/uart_servo.py:461-467 | files a fresh online record and seeds it; result, frames, replies left and counters are ScanRead of the script, and on success both positions equal the value read back |
| UartServo.UartServoManager.ReadBack | services/uart_servo.py:465-467 | reads the position and seeds both positions with it, as ScanRead of the script says; other records are kept |
| UartServo.UartServoManager.ScanOne | services/uart_servo.py:453-470 | one pass: result, frames, replies left and counters are ScanPass of the script; it answered exactly when the ping did within 10 tries; on success the records change as one pass says; an exception comes only after an answered ping added the id; an answering id not yet listed goes last in the insertion order, which otherwise stays |
| UartServo.UartServoManager.ServoScan | services/uart_servo.py:451-470 | the scan is ScanFrom of the script: it finishes exactly when no pass raised, with its frames, replies left and counters; the records then grow by exactly the answering ids, answering ids are online with read-back positions, and silent known ids are offline; a raised pass stops at that id, which is left in the table; the insertion order is Registered: the answering ids not yet listed are appended in scan order |
| UartServo.UartServoManager.ScanNext | services/uart_servo.py:452-470 | one turn of the scan loop moves the loop invariant on past the id, or ends the scan with that pass's error |
| UartServo.ScanFrom | services/uart_servo.py:451-470 | the scan reports one finished pass per id up to the one that raised, and finishes exactly when every pass finished |
| UartServo.ScanFromNext | services/uart_servo.py:452-470 | the scan from an id on is that id's pass and, unless it raised, the scan of the rest |
| UartServo.ScanAtStep | services/uart_servo.py:452-470 | a finished pass moves the loop's view of the run on by its answer, its read-back value and its frames |
| UartServo.ScanAtNext | services/uart_servo.py:452-470 | seen from the loop, a raised pass ends the run where the loop stands, and a finished one moves it on |
| UartServo.ScanAtRaised | services/uart_servo.py:452-467 | a pass that raised ends the scan with what the loop has seen |
| UartServo.ScanAtDone | services/uart_servo.py:452 | past the last id, the run is what the loop has seen |
| UartServo.PassSilent | services/uart_servo.py:455-470 | on a silent bus a pass finishes with its ping unanswered after 10 PING frames, and the replies left are still silent |
| UartServo.ScanSilent | services/uart_servo.py:451-470 | on a bus that never answers the scan finishes, nothing answers, it sends 10 pings per id, and no record is added |
| UartServo.NoneAnswered | services/uart_servo.py:455-470 | passes that all went unanswered adopt no id |
| BalanceCtrl.Defaults | services/balance_ctrl.py:8 | the ids 1..n, in order, all at 2048 |
| BalanceCtrl.Base | services/balance_ctrl.py:8 | the ids 1..25, all at 2048 |
| BalanceCtrl.FirstBad | services/balance_ctrl.py:10-13 | the first pair that `int()` refuses ends the copy; all before it convert |
| BalanceCtrl.Pairs | services/balance_ctrl.py:10-11 | the converted (id, position) pairs, in order |
| BalanceCtrl.FoldKeys | services/balance_ctrl.py:10-11 | the completed pose holds the base ids plus every copied id |
| BalanceCtrl.FoldUntouched | services/balance_ctrl.py:8-13 | an id no copied pair names keeps its base value |
| BalanceCtrl.FoldLast | services/balance_ctrl.py:10-11 | an id takes the value of the last pair that names it |
| BalanceCtrl.CompletionStep | services/balance_ctrl.py:10-11 | one loop pass is one dictionary assignment |
| BalanceCtrl.CompletedCoversBody | services/balance_ctrl.py:5-14 | the completed pose holds every id 1..25 |
| BalanceCtrl.CompleteNeutral | services/balance_ctrl.py:8-14 | the loop builds the completed pose, stopping silently at the first bad pair |
| BalanceCtrl.CompletedDefault | services/balance_ctrl.py:8-13 | an id not given before the first bad pair stays at 2048 |
| BalanceCtrl.CompletedOverride | services/balance_ctrl.py:10-11 | a given id takes its last given value |
| BalanceCtrl.Clamp | services/balance_ctrl.py:71-72 | `max(0, min(4095, x))`: in range, and the identity on the range |
| BalanceCtrl.ScaledByGains | services/balance_ctrl.py:20-25 | pitch and roll are multiplied by the gains `__init__` chose: 5.5 and 4.2 in landscape, 5.0 and 3.8 otherwise |
| BalanceCtrl.Corrected | services/balance_ctrl.py:27-74 | `compute` keeps the neutral ids and their order, and every target is in 0..4095 |
| BalanceCtrl.CorrectedBy | services/balance_ctrl.py:32-74 | each target is the clamped neutral plus that id's correction |
| BalanceCtrl.CorrectionOnlyAdjusted | services/balance_ctrl.py:32 | ids outside the adjusted set keep their (clamped) neutral value |
| BalanceCtrl.CorrectionAtRest | services/balance_ctrl.py:27-74 | a level, unrotated body gets zero offsets and the clamped neutral pose |
| BalanceCtrl.RollMovesOnlyAnkles | services/balance_ctrl.py:49-51 | roll changes only ids 18 and 24 |
| BalanceCtrl.PairedCorrections | services/balance_ctrl.py:40-68 | thighs get +p, knees -1.5p, ankles +0.5p, ankles left/right +r, shoulders +swing and -swing |
| BalanceCtrl.KnownTargets | services/balance_ctrl.py:99-104 | only ids of the pose that the manager knows are kept, each with its truncated position |
| BalanceCtrl.KnownTargetsComplete | services/balance_ctrl.py:101-104 | every known id of the pose is kept |
| BalanceCtrl.LoopRuntime | services/balance_ctrl.py:107 | the runtime is at least 30 ms |
| BalanceCtrl.TickFrameContents | services/balance_ctrl.py:95-108 | one loop pass sends at most one sync write, whose payload decodes to the known ids with positions in range and runtimes of at least 30 |
| BalanceCtrl.SentStoppedContents | services/balance_ctrl.py:99-108 | a pass clears the flags of known ids only: of every id the sync write carries when it goes out, of none when no id is known, and otherwise of the ids up to the first entry that does not pack |
| BalanceCtrl.BalanceController.constructor | services/balance_ctrl.py:5-25 | the neutral pose is the completed one; the gains follow the orientation |
| BalanceCtrl.BalanceController.Compute | services/balance_ctrl.py:27-74 | returns the corrected pose |
| BalanceCtrl.BalanceController.StartLoop | services/balance_ctrl.py:84-87 | while `_loop_running` is True nothing changes, even when the thread has ended; otherwise the loop runs with the given period |
| BalanceCtrl.BalanceController.StopLoop | services/balance_ctrl.py:127-129 | the loop is no longer running |
| BalanceCtrl.BalanceController.Tick | services/balance_ctrl.py:93-122 | a stopped loop does nothing and does not turn again; a running one with a reading writes the pass's frames (TickFrames) and clears the flags TickStopped names; a failed reading does nothing; replies and counters are untouched, exceptions are swallowed, and the thread turns again exactly when the loop runs and the period is not negative |
| BalanceCtrl.BalanceController.Pass | services/balance_ctrl.py:99-108 | for the corrected pose, the frames written are SentFrames and the flags cleared are SentStopped, and nothing else changes |
| BalanceCtrl.Adjustments | services/balance_ctrl.py:40-68 | the nine adjustment steps name distinct ids in 1..25 |
| BalanceCtrl.AdjustmentsSum | services/balance_ctrl.py:40-68 | the steps add up to each id's correction |
| BalanceCtrl.AllAdjustmentsSum | services/balance_ctrl.py:40-68 | the same, for every id at once |
| BalanceCtrl.CorrectPose | services/balance_ctrl.py:32-74 | the in-place steps and the clamp produce the corrected pose |
| BalanceCtrl.AdjustPose | services/balance_ctrl.py:32-68 | the nine steps before the clamp |
| BalanceCtrl.ApplyAll | services/balance_ctrl.py:40-68 | each id gains the sum of the steps that name it |
| BalanceCtrl.AddToEach | services/balance_ctrl.py:41-46 | one `for sid in [...]` step adds its delta to each named id |
| BalanceCtrl.ClampAll | services/balance_ctrl.py:71-72 | the clamp loop clamps every value in place |
| BalanceCtrl.KnownPositions | services/balance_ctrl.py:99-104 | the filtering loop builds the known targets |
| ActionNames.StripLeft | services/motion_controller.py:265 | strips leading blanks: what is cut is blank, and what remains does not start with one |
| ActionNames.StripRight | services/motion_controller.py:265 | strips trailing blanks in the same way |
| ActionNames.Strip | services/motion_controller.py:265 | a stripped string starts and ends with a non-blank |
| ActionNames.LowerChar | services/motion_controller.py:265 | a lowered character is not a capital, and is blank exactly when the original is |
| ActionNames.Lower | services/motion_controller.py:265 | `lower()` maps each character |
| ActionNames.Normalize | services/motion_controller.py:265 | the name has no blank at either end and no capitals |
| ActionNames.StripKeeps | services/motion_controller.py:265 | a string with no blank at either end is its own strip |
| ActionNames.LowerKeeps | services/motion_controller.py:265 | a string with no capitals is its own lower form |
| ActionNames.NormalizeIdempotent | services/motion_controller.py:265 | normalizing twice is normalizing once |
| ActionNames.StripLeftPadded | services/motion_controller.py:265 | leading blanks do not change the left strip |
| ActionNames.StripRightPadded | services/motion_controller.py:265 | trailing blanks do not change the right strip |
| ActionNames.StripLeftTail | services/motion_controller.py:265 | trailing blanks survive the left strip and are cut by the right one |
| ActionNames.BlankStrips | services/motion_controller.py:265 | a blank string strips to nothing |
| ActionNames.StripPadded | services/motion_controller.py:265 | blanks around a string do not change its strip |
| ActionNames.StripEmpty | tools/testbench/test_motion.py:24-25 | a string strips to empty exactly when it is all blank |
| ActionNames.NormalizePadded | services/motion_controller.py:265 | blanks around the action name do not matter |
| ActionNames.NormalizeCase | services/motion_controller.py:265 | capitals in the action name do not matter |
| ActionNames.LowerTwice | services/motion_controller.py:265 | lowering twice is lowering once |
| ActionNames.StripLeftLower | services/motion_controller.py:265 | lowering commutes with the left strip |
| ActionNames.StripRightLower | services/motion_controller.py:265 | lowering commutes with the right strip |
| MotionCtrl.JointOnto | services/motion_controller.py:37-44 | the 25 joint names map onto the ids 1..25 in order |
| MotionCtrl.JointInverse | services/motion_controller.py:37-44 | every joint's id is in 1..25 and names it back |
| MotionCtrl.JointInjective | services/motion_controller.py:37-44 | no two joints share an id |
| MotionCtrl.UpperJointIds | services/motion_controller.py:38-41 | the head, arm and waist joints the poses use have the ids the map gives them |
| MotionCtrl.LegJointIds | services/motion_controller.py:42-43 | the leg joints the poses use have the ids the map gives them |
| MotionCtrl.NamesListedFront | services/motion_controller.py:38-41 | the first 13 joints map to ids 1..13 |
| MotionCtrl.NamesListedBack | services/motion_controller.py:42-43 | the last 12 joints map to ids 14..25 |
| MotionCtrl.ClampPos | services/motion_controller.py:50-56 | `_clamp_pos` of a float lands in 0..4095, and is the truncation on the range |
| MotionCtrl.ClampPosOfInt | services/motion_controller.py:50-56 | on integers it is the manager's `get_legal_position` |
| MotionCtrl.Filtered | services/motion_controller.py:61-67 | keeps only known ids, in dict order, each with its clamped position |
| MotionCtrl.FilteredComplete | services/motion_controller.py:63-67 | every known target id is kept |
| MotionCtrl.Fuse | services/motion_controller.py:79-82 | the fused position is in 0..4095 |
| MotionCtrl.FuseAddsNeutralTwice | services/motion_controller.py:79-82 | with the balance output equal to the neutral value, the sent position is the clamped `pose + neutral` |
| MotionCtrl.FuseMidPositionSaturates | services/motion_controller.py:79-82 | a mid-position servo at rest is sent 4095 |
| MotionCtrl.FusedAll | services/motion_controller.py:78-82 | one fused position per id, each in range |
| MotionCtrl.Poses | services/motion_controller.py:73-84 | one position per filtered id |
| MotionCtrl.SendContents | services/motion_controller.py:58-95 | `_send_targets` sends at most one frame, and returns True exactly when it does; no known id means no frame and no IMU read; the frame is a SYNC_WRITE broadcast whose payload lists the filtered ids in order, in range, with the given runtime |
| MotionCtrl.DispatchContents | services/motion_controller.py:87-95 | the frame goes out exactly when the manager's sync write packs every entry, and decodes to those entries |
| MotionCtrl.DispatchTargets | services/motion_controller.py:87-95 | a dispatched frame lists the given known ids in order, each with a position in 0..4095 and the given runtime |
| MotionCtrl.RunAppend | services/motion_controller.py:58-105 | running two plans in a row is running their concatenation |
| MotionCtrl.RunSnoc | services/motion_controller.py:58-105 | running one more step appends its frames |
| MotionCtrl.RunFrameCount | services/motion_controller.py:58-105 | a plan sends at most one frame per step |
| MotionCtrl.Offset | services/motion_controller.py:134 | `t[sid] = t.get(sid, 2048) + delta` changes only that id |
| MotionCtrl.SitPose | services/motion_controller.py:128-137 | knees +450 and waist +150 from the neutral |
| MotionCtrl.ArmOf | services/motion_controller.py:142-151 | 'right' picks the right arm; anything else the left |
| MotionCtrl.GrabPose | services/motion_controller.py:175-182 | the chosen hand +400 when closing, -400 when opening |
| MotionCtrl.HipsPose | services/motion_controller.py:184-191 | shoulder lifts +200 and elbows +350 |
| MotionCtrl.TwistPose | services/motion_controller.py:193-197 | waist + `int(angle * 4)` |
| MotionCtrl.PhaseA | services/motion_controller.py:208-214 | left leg swings and lifts, right ankle +60 |
| MotionCtrl.PhaseB | services/motion_controller.py:219-224 | left hip back, right leg swings and lifts, left ankle -60 |
| MotionCtrl.AlternateShape | services/motion_controller.py:206-226 | k rounds alternate the two steps |
| MotionCtrl.WavePlanShape | services/motion_controller.py:140-173 | arm up, then `times` pairs of hand +/-350 at 220 ms, then neutral at 300 ms |
| MotionCtrl.WalkPlanShape | services/motion_controller.py:200-230 | `steps` pairs of the two phases at the step runtime, then neutral at 300 ms |
| MotionCtrl.NeckPlanShape | services/motion_controller.py:238-262 | `max(1, times)` up/down pairs on one servo, then its base |
| MotionCtrl.StridesError | services/motion_controller.py:206-216 | walking raises only when steps are positive and the speed is zero or the pause negative |
| MotionCtrl.ActionPlanShape | services/motion_controller.py:264-285 | the idle and unknown actions, and only they, send nothing; stop sends neutral at 300 ms; walk sends four stride steps and then neutral at 300 ms |
| MotionCtrl.ImuFeed.GetOrientation | services/motion_controller.py:75 | one IMU call takes the next scripted reading |
| MotionCtrl.ImuFeed.constructor | services/motion_controller.py:75 | an IMU whose readings are the given script |
| MotionCtrl.MotionController.constructor | services/motion_controller.py:24-47 | a missing neutral map is the empty one, and the controller is not running |
| MotionCtrl.MotionController.SendTargets | services/motion_controller.py:58-105 | performs exactly the send of one step and returns its success; the manager's counters do not move |
| MotionCtrl.MotionController.Transmit | services/motion_controller.py:93-95 | the manager's sync write of the ids and positions, with a runtime list of the same length: the frame exactly when every entry packs, the `is_stop` flags cleared up to the failing entry, replies and counters unchanged |
| MotionCtrl.MotionController.TransmitStep | services/motion_controller.py:93-95 | the same call as one send sees it: the frame exactly when every entry packs, replies and counters unchanged, and every record's online flag and positions kept |
| MotionCtrl.MotionController.SentIsDispatched | services/motion_controller.py:58-105 | a send that appended its frames, used its IMU reading and changed only `is_stop` flags is one dispatched step |
| MotionCtrl.MotionController.FusedPoses | services/motion_controller.py:73-84 | reads the IMU only when a corrector and an IMU are attached, and returns the fused positions |
| MotionCtrl.MotionController.GotoNeutral | services/motion_controller.py:118-122 | sends the neutral pose with the given runtime |
| MotionCtrl.MotionController.Stand | services/motion_controller.py:124-126 | is `goto_neutral` |
| MotionCtrl.MotionController.Sit | services/motion_controller.py:128-137 | sends the sitting pose |
| MotionCtrl.MotionController.Grab | services/motion_controller.py:175-182 | sends the grab pose |
| MotionCtrl.MotionController.HandsOnHips | services/motion_controller.py:184-191 | sends the hands-on-hips pose |
| MotionCtrl.MotionController.Twist | services/motion_controller.py:193-197 | sends the twist pose |
| MotionCtrl.MotionController.Wave | services/motion_controller.py:140-173 | a negative pause raises ValueError after the arm-up step; otherwise sends the wave plan and returns True |
| MotionCtrl.MotionController.Walk | services/motion_controller.py:200-230 | with steps to take, zero speed raises ZeroDivisionError before anything is sent, and a negative pause raises ValueError after the first phase; otherwise sends the walk plan and returns True |
| MotionCtrl.MotionController.Strides | services/motion_controller.py:206-226 | the stride loop's error and the steps it sent |
| MotionCtrl.MotionController.Rounds | services/motion_controller.py:206-226 | k error-free rounds send the alternating plan |
| MotionCtrl.MotionController.Nod | services/motion_controller.py:238-249 | sends the nod plan on the neck pitch and returns True |
| MotionCtrl.MotionController.ShakeHead | services/motion_controller.py:251-262 | sends the shake plan on the neck yaw and returns True |
| MotionCtrl.MotionController.Neck | services/motion_controller.py:243-248 | the shared up/down loop of nod and shake |
| MotionCtrl.MotionController.Stop | services/motion_controller.py:232-236 | clears running and sends neutral at 300 ms |
| MotionCtrl.MotionController.RunAction | services/motion_controller.py:264-285 | normalizes the name, sends the chosen action's plan, clears running only for 'stop', and returns that branch's value |
| MotionCtrl.MotionController.Perform | services/motion_controller.py:266-285 | the dispatch on a normalized name |
| MotionCtrl.MotionController.Skip | services/motion_controller.py:266-285 | an empty or 'none' name returns True and an unknown one False, with nothing sent and nothing else changed |
| MotionCtrl.MotionController.RunMotion | services/motion_controller.py:268-278 | walk(2), nod(1), shake_head(1) and wave('right', 1) send their plans and return True, leaving the running flag alone |
| MotionCtrl.MotionController.RunPose | services/motion_controller.py:270-284 | stop, sit, stand and twist(25) |
| MotionCtrl.FollowsSnoc | services/motion_controller.py:58-105 | sends compose one step at a time |
| MotionCtrl.FollowsAppend | services/motion_controller.py:58-105 | sends compose plan by plan |
| MotionCtrl.StoppedAllKeepsCores | services/uart_servo.py:394-395 | a sync write changes only the `is_stop` flags |
| MotionCtrl.CopyTargets | services/motion_controller.py:119-121 | copying the neutral map gives the same ordered map |
| MotionCtrl.FilterKnown | services/motion_controller.py:61-67 | the filtering loop builds the filtered targets |
| MotionCtrl.FuseAll | services/motion_controller.py:78-82 | the fusion loop builds the fused positions |
| Bus.DefaultIds | services/servo_bus.py:16 | `list(range(1, 26))` |
| Bus.TimedWrite | services/servo_bus.py:41 | `set_position_time` with a runtime: a WRITE frame to the id with five parameter bytes, exactly when the table has the field and the packed values fit; else KeyError or `struct.error` |
| Bus.TimedWriteDecodes | services/servo_bus.py:41 | the frame decodes to the address, the clamped position and the runtime |
| Bus.FallbackAllOrNothing | services/servo_bus.py:58-62 | the fallback either writes nothing, or one write per target in dict order |
| Bus.FallbackOnlyAfterBadId | services/servo_bus.py:54-62 | the fallback sends anything only when the sync write failed on an id that is not a byte |
| Bus.Positions | services/servo_bus.py:52 | one truncated position per target, in dict order |
| Bus.ReadOn | services/servo_bus.py:79 | a named read never lengthens the replies still to come |
| Bus.ReadOnAddressed | services/servo_bus.py:79 | a named read only appends READ frames to the id |
| Bus.StatusAddressed | services/servo_bus.py:78-82 | `get_status` adds only READ frames to the id, after what was already written |
| Bus.StatusFullConsumes | services/servo_bus.py:78-82 | a status with all three values consumed at least three receive windows |
| Bus.ServoBus.constructor | services/servo_bus.py:6-20 | no port means mock mode; with a port, the scan of ids 1..25 runs as ScanFrom of the script says, the bus is mock exactly when it raised, and the manager then knows exactly the ids that answered, all in 1..25 |
| Bus.Connect | services/servo_bus.py:16 | a fresh manager on the port, then the scan of 1..25: its frames, replies left and verdict are ScanFrom of the script; on success the records are the answering ids, online with the positions read back, as ScanOutcome says |
| Bus.AnsweredDefault | services/servo_bus.py:16 | only ids 1..25 can answer a scan of 1..25 |
| Bus.ServoBus.Close | services/servo_bus.py:22-35 | always ends in mock mode; closes the port only when it was live |
| Bus.ServoBus.Move | services/servo_bus.py:37-41 | in mock mode nothing happens; otherwise exactly one timed write, or its exception |
| Bus.ServoBus.SyncLists | services/servo_bus.py:47-53 | the three lists have equal lengths, in dict order: the ids, the truncated positions, and `time_ms` throughout |
| Bus.ServoBus.Fallback | services/servo_bus.py:58-62 | appends the fallback writes, one timed write per target when the table allows them, and changes nothing else |
| Bus.ServoBus.Recover | services/servo_bus.py:56-68 | the fallback writes, then one ACTION broadcast |
| Bus.ServoBus.MoveSync | services/servo_bus.py:43-68 | mock mode or no targets changes nothing; otherwise one SYNC_WRITE of the lists, or, when it raises, the fallback writes and one ACTION |
| Bus.ServoBus.SetTorque | services/servo_bus.py:70-73 | in mock mode nothing happens; otherwise one broadcast torque write |
| Bus.ServoBus.GetStatus | services/servo_bus.py:75-82 | in mock mode None; otherwise the three reads in order, and the first exception propagates |
| IdList.DigitChar | tools/testbench/test_motion.py:29 | the digit character of d reads back as d |
| IdList.RunValue | tools/testbench/test_motion.py:29 | a digit run `int()` accepts starts and ends with a digit |
| IdList.IntOf | tools/testbench/test_motion.py:29 | a refused string raises ValueError |
| IdList.ShowNatValue | tools/testbench/test_motion.py:29 | the digits of n read back as n |
| IdList.IntOfShowNat | tools/testbench/test_motion.py:29 | `int(str(n)) == n` for n >= 0 |
| IdList.IntOfShowNeg | tools/testbench/test_motion.py:39 | `int('-' + str(m)) == -m` |
| IdList.ParseShow | tools/testbench/test_motion.py:39 | `int(str(n)) == n` |
| IdList.ParseIntPadded | tools/testbench/test_motion.py:37 | `int()` ignores blanks around its argument |
| IdList.Split | tools/testbench/test_motion.py:31 | `split` gives at least one piece, none holding the separator |
| IdList.JoinSplit | tools/testbench/test_motion.py:31 | joining the pieces gives the string back |
| IdList.SplitJoin | tools/testbench/test_motion.py:31 | splitting joined separator-free pieces gives them back |
| IdList.SplitAfter | tools/testbench/test_motion.py:31 | a separator after a separator-free prefix splits it off |
| IdList.SplitNone | tools/testbench/test_motion.py:31 | a string without the separator is one piece |
| IdList.FirstIndex | tools/testbench/test_motion.py:28 | `split('-', 1)` cuts at the first dash |
| IdList.Range | tools/testbench/test_motion.py:29 | `range(a, b + 1)` lists a..b; it is empty when a > b |
| IdList.RangeOfCut | tools/testbench/test_motion.py:28-29 | "x-y" with no dash in x gives the range of `int(x)` and `int(y)`, or the first exception |
| IdList.AppendAssoc | tools/testbench/test_motion.py:37 | concatenating parts is associative, and the first exception wins |
| IdList.ParseIdList | tools/testbench/test_motion.py:23-40 | the loop computes the parser's result, including its exceptions |
| IdList.PartsSnoc | tools/testbench/test_motion.py:31-39 | one loop pass appends that part's ids |
| IdList.PrefixRaised | tools/testbench/test_motion.py:31-39 | an exception in a part ends the parse |
| IdList.BlankIsDefault | tools/testbench/test_motion.py:24-26 | empty or blank input gives [1..25] |
| IdList.NonBlankIsParsed | tools/testbench/test_motion.py:27-40 | otherwise a dash without a comma is one range, and anything else is the comma list |
| IdList.DashOnly | tools/testbench/test_motion.py:27 | a dash and no comma selects the single-range branch |
| IdList.DashShape | tools/testbench/test_motion.py:27 | a digits-dash-digits string is stripped and takes the single-range branch |
| IdList.DigitsRange | tools/testbench/test_motion.py:27-29 | digits-dash-digits gives the inclusive range of their values |
| IdList.SingleRange | tools/testbench/test_motion.py:27-29 | `str(a) + '-' + str(b)` gives a..b inclusive |
| IdList.PartsAppend | tools/testbench/test_motion.py:30-40 | the comma list concatenates its parts' ids, in order |
| IdList.AppendNothing | tools/testbench/test_motion.py:33-34 | a skipped part adds nothing |
| IdList.BlankPartSkipped | tools/testbench/test_motion.py:33-34 | an empty or blank segment changes nothing |
| IdList.Format | tools/testbench/test_motion.py:39 | one decimal string per id |
| IdList.PartOfShowNat | tools/testbench/test_motion.py:38-39 | a bare number is the one-element list of its value |
| IdList.FormatParts | tools/testbench/test_motion.py:31-39 | the parts of a formatted list parse to the ids |
| IdList.ListRoundTrip | tools/testbench/test_motion.py:23-40 | `parse_id_list(",".join(map(str, ids))) == ids` for every non-empty list of non-negative ids |
| IdList.JoinFormatted | tools/testbench/test_motion.py:30-31 | a joined list of numbers is digits and commas, with a comma once there are two parts |

## Left out

- Packet framing, which includes `Packet.pack`, `Packet.unpack` and `PacketBuffer`, is not part of this model. A frame is the (id, command, parameters) triple given to `Packet.pack`, and a reply is the unpacked tuple with its raw length.
- `data_table` is not part of this model. The field table, the broadcast id, the servo motor mode and the torque values are constructor parameters.
- Time is left out: `time.time`, `time.sleep`, the receive timeout, the delays between commands and the diagnostics log interval. The clock of `is_stop` is a parameter. A receive window is one scripted reply or silence. `time.sleep` appears only where its argument can be negative, as the ValueError it raises: in `wave` and `walk`, and in the balance thread, where it sits outside the `try` and ends the thread (`Tick` returns False).
- Logging, `print`, `_diag_cmd_name`, the diagnostics tag and the log interval are left out: they only produce output.
- Threads and locks are left out: the balance thread, `_lock` and `join`. The balance loop is one pass (`Tick`) per reading, plus a running flag. A thread left over from an earlier `start_loop` running beside a new one is not modelled.
- BalanceCtrl.BalanceController.Tick: the log counter and the status logging every tenth pass are left out; they only produce output.
- Serial port opening is left out. `ServoBus` gets an optional port, and a port that fails to open is the absent port.
- `_send_targets`'s `move_sync` and per-id branches are left out. The application gives the controller a `UartServoManager`, which has `sync_set_position` and no `move_sync`, so the model takes the sync-write branch.
- `_to_pos`, `__str__`, `cur_angle` and `target_angle` are left out: nothing calls the first two, and the last two appear only inside `IsStop`.
- `lower()` and `strip()` on non-ASCII capitals and `int()` on non-ASCII digits are left out. Only ASCII is folded and read, and the blanks `strip()` removes are Python's whitespace set.
- `int(sid)` on non-integer dictionary keys is left out. Ids are integers throughout.
- Floating point is left out. Reals are exact, and `int()` of a float truncates toward zero.
- MotionCtrl.MotionController.Walk: the per-pass values and pauses are computed once, since they do not change between passes. `Strides` raises a pass's exception in the first pass, where the code also raises it.
- MotionCtrl.MotionController.Nod and ShakeHead: the `if not sid` branch is left out. The joint map always holds both neck joints, so that branch cannot run.
- MotionCtrl.MotionController.Perform: the dispatch is on `ActionOf` of the normalized name, with one branch per action, which is equivalent to the code's chain of string comparisons.
- MotionCtrl.Follows: between sends, the servo records are compared by their cores (ids, online flag and positions), not their `is_stop` flags, which every sync write clears.
- Bus.ServoBus.GetStatus: the dictionary `{"pos", "temp", "volt"}` is the `Status` datatype.
- Bus.ServoBus.MoveSync: `hasattr(self.manager, 'async_action')` always holds for the manager, so the action broadcast is unconditional.
- Bus.ServoBus.Close: `hasattr(self, 'uart')` holds whenever a port was given, so it is the port's presence.
- Bus.ServoBus.constructor: when the manager's constructor or scan raises, the model leaves no manager. Python keeps the port and sets the mock flag in the same way.
- `enable_diagnostics` takes only the on/off flag; the tag and log interval are not modelled.
- Default arguments are left out; every caller passes the value. These are `servo_id_list=[1]` of the manager's constructor and of `servo_scan`, `time_ms=300` of `ServoBus.move` and `move_sync`, and `enable=True` of `set_torque`. `UartServo.UartServoManager.constructor` stops before its `servo_scan` call; `Bus.Connect` models `UartServoManager(uart, servo_id_list=list(range(1, 26)))` as that constructor followed by `ServoScan` of 1..25.
- UartServo.UartServoManager.SendRequest: the `readall()` drain of stale input before a request is left out. The scripted port holds no unread input outside a receive window.
- UartServo.UartServoManager.WriteDataByName: returns `Ok(b)`, with b saying whether a frame went out, where `write_data_by_name` returns None in both cases. The methods that pass its result on (`SetRuntimeMs`, `SetMotorMode`, `TorqueEnable`, `TorqueEnableAll`, `SetTorqueUpperb`, `DcStop`, `DcRotate`) return the same `Ok(b)` where their Python counterparts return None; no caller in the core uses that value.
