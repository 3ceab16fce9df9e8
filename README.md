# Schunk WSG gripper driver: a Dafny model

This project models the core of a driver for the Schunk WSG parallel gripper.
The driver has two layers, plus the scripts that plot its logs:

- **Wire protocol.** It frames commands as `AA AA AA | command | length (2) |
  payload | CRC16 (2)` datagrams and parses the replies the gripper sends
  back. A reply's payload starts with a two-byte status code.
- **Device.** The `Wsg` class sends a command and then polls for its reply.
  It skips replies to other commands and replies still marked
  `E_CMD_PENDING`, and it gives up when its timeout runs out.
- **Controllers.** Three controllers sit on top of `Wsg`:
  - `src/position_force_control.cc` calibrates the gripper and emulates
    force control. A target change sends a force limit, a stop and a
    non-blocking preposition move, unless both quantities lie within a 5-unit
    deadband of the target being executed. Its `Task` loop reads the periodic
    status updates into cached values.
  - The older top-level `position_force_control.cc` is an earlier version of
    the same controller. Its calibration stops after taring, and its
    `SetPositionAndForce` has no body yet.
  - `src/position_control.cc` does its start-up in the constructor. It moves
    with a stop plus a preposition and sets force limits on request.
- **Plot scripts.** `tools/lcm_plot.py` and `tools/schunk_plot.py` read a
  CSV dump of the status stream into timestamped events. Header rows name a
  message type's fields. The scripts then plot chosen fields, or the
  difference of two fields over time, with tight axis bounds.

## How the model is built

- **Bytes.** A byte is an integer in 0..255. Multi-byte values are
  little-endian, as on the host the driver runs on.
- **Floats.** A `float` is the opaque group of its four bytes. The narrowing
  from `double` to `float` is a parameter `narrow` of the controllers.
- **CRC16.** The checksum function is a parameter `crc16` of `Wsg`.
- **Transport and clock.** `Wsg` holds the stream of every reply the gripper
  sends during the session, in order, and a read cursor `received`. Each
  receive reads the next reply; an empty receive means the session has no
  reply left. A timeout of `t` seconds is a budget of `1000 * t` receive
  polls, one per millisecond.
- **Start-up over the replies.** `After`, `RunUpdates`, `HomingEnd` and
  `LimitsAt` say, from the replies alone, where each wait of a start-up
  stops reading and what it found. `CalibrationOutcome` and `StartupOutcome`
  combine them into the outcome the controllers must report.
- **What was sent.** The `log` of `Wsg` records every request sent, and
  `Sent()` holds the frames those requests serialize to.
- **Errors.** Failures are values, not exceptions:
  - An update request left without a final reply ends a start-up with
    `Calibration.UpdatesFailed(i)`. The source throws there, or fails an
    `assert` in the early driver.
  - A limits query left without a final reply ends it with
    `Calibration.LimitsFailed`, where the source throws.
  - A limits reply too short to hold the limits also gives `LimitsFailed`.
    The source does not fail there (see "Left out").
  - A buffer that does not parse makes `Parse` return `Err(...)`.
- **Status cache.** The status each controller caches is a `Cache` value.
  `Apply` is one pass of a `Task` loop body, and `Drain` is a whole loop.
  The three controllers' `Task` methods are proved against these.
- **Plot scripts.**
  - CSV rows arrive already tokenized, as sequences of strings.
  - Python's `int()` and `float()` are parameters `toInt` and `toFloat`.
  - The order in which `dict.iteritems()` lists an event's items is a
    parameter `order`. It must list each key exactly once.
  - The outputs of `extract_events` and of `plot_differences` are given as
    specification functions over these inputs.

## Model

| member | source | states |
|---|---|---|
| `Bytes.U16Bytes` | wsg_command_message.cc:32 | the two little-endian bytes of a 16-bit value decode back to it |
| `Bytes.DecodeU16Inverse` | src/wsg.h:97 | decoding two bytes and encoding the result gives the same two bytes |
| `Bytes.U32Bytes` | wsg_command_message.cc:33 | the four little-endian bytes of a 32-bit value decode back to it |
| `Bytes.DecodeU32Inverse` | src/wsg.h:98 | decoding four bytes and encoding the result gives the same four bytes |
| `CommandMessage.Command.Code` | wsg_command_message.h:18-51 | every command code lies between 0x06 and 0x63 |
| `CommandMessage.CommandOf` | wsg_command_message.h:18-51 | a code maps to a command only when that command's code is the given number |
| `CommandMessage.MotionCommandOf` | wsg_command_message.h:19-35 | the lookup for codes 0x06 to 0x38 returns only a command with the given code |
| `CommandMessage.StatusCommandOf` | wsg_command_message.h:36-50 | the lookup for codes 0x40 to 0x63 returns only a command with the given code |
| `CommandMessage.CommandCodesDistinct` | wsg_command_message.h:18-51 | every command's code looks up to that command; no two commands share a code; every code fits the command byte |
| `CommandMessage.HostBytes` | wsg_command_message.cc:24-34 | appending an item adds exactly its size: 1, 2 or 4 bytes |
| `CommandMessage.Frame` | wsg_command_message.cc:10-22 | a serialized frame is the payload plus 8 bytes: three 0xAA sync bytes, the low command byte, the low length byte, a high length byte that is always 0, the payload, and the CRC16 of the first `6 + n` bytes, low byte first |
| `CommandMessage.FrameCorrected` | wsg_command_message.cc:16-17 | the corrected frame writes the length's high byte as `n / 256` |
| `CommandMessage.FrameCorrectedAgrees` | wsg_command_message.cc:16-17 | for payloads under 256 bytes, the corrected frame and the frame as written are the same |
| `CommandMessage.WsgCommandMessage.constructor` | wsg_command_message.h:55-57 | a new message holds the given command and payload |
| `CommandMessage.WsgCommandMessage.AppendToPayload` | wsg_command_message.cc:24-29 | appending keeps the old payload as a prefix and adds the item's host bytes after it |
| `CommandMessage.WsgCommandMessage.Serialize` | wsg_command_message.cc:10-22 | the buffer written is a fresh array holding exactly the frame of the command and payload |
| `ReturnMessage.StatusCode.Code` | src/wsg_return_message.h:9-41 | every status code lies between 0 and 30 |
| `ReturnMessage.StatusOf` | src/wsg_return_message.h:9-41 | a number names a status exactly when it lies in 0..30, and the status named has that code |
| `ReturnMessage.LowStatusOf` | src/wsg_return_message.h:10-25 | codes 0..15 and only those name a status, the one with that code |
| `ReturnMessage.HighStatusOf` | src/wsg_return_message.h:26-40 | codes 16..30 and only those name a status, the one with that code |
| `ReturnMessage.StatusOfCode` | src/wsg_return_message.h:9-41 | every status is recovered from its own code |
| `ReturnMessage.StatusCodesConsecutive` | src/wsg_return_message.h:9-41 | every status's code looks up to that status, and no two statuses share a code |
| `ReturnMessage.StateFlag.Bit` | src/wsg_return_message.h:44-67 | every state flag is a bit below 21 other than the reserved bits 8, 10 and 11 |
| `ReturnMessage.FlagAt` | src/wsg_return_message.h:44-67 | a bit position maps only to the flag at that bit |
| `ReturnMessage.StateFlagsDistinct` | src/wsg_return_message.h:44-67 | every flag's bit looks up to that flag, and distinct flags have distinct bits |
| `ReturnMessage.GraspingState.Code` | src/wsg_return_message.h:70-79 | every grasping state's code lies between 0 and 7 |
| `ReturnMessage.Parse` | src/wsg_return_message.cc:8-25 | a buffer under 10 bytes fails, and so does one without three 0xAA sync bytes. A buffer parses exactly when it is at least 10 bytes, starts with the sync bytes, declares a payload of at least 2 bytes and is exactly that payload plus 8 bytes long. The message then holds byte 3 as the command and bytes 6-7 as the status, and its parameters are the rest of the payload |
| `ReturnMessage.ParseIgnoresChecksum` | src/wsg_return_message.cc:21-22 | two buffers that differ only in their last two (checksum) bytes parse alike |
| `ReturnMessage.ParseFrame` | wsg_command_message.cc:10-22 | a serialized frame parses exactly when its payload holds 2 to 255 bytes. It then gives back the command byte, the first two payload bytes as the status, and the rest as parameters |
| `ReturnMessage.ParseFrameCorrected` | wsg_command_message.cc:16-17 | with the corrected length byte, every frame with 2 to 65535 payload bytes parses back to its command, status and parameters |
| `ReturnMessage.LongPayloadUnparseable` | wsg_command_message.cc:17 | a 256-byte payload is framed with a declared size of 0, so parsing that frame fails |
| `Device.Await` | src/wsg.h:55-78 | a wait never reads more replies than it has polls |
| `Device.AwaitSkipsToFirstFinal` | src/wsg.h:58-77 | a wait reads replies in order. It skips every reply that is for another command or is still pending, and it returns the first reply that is final for its command. With no final reply among those it can read, it returns nothing after all replies or all polls are used up |
| `Device.AwaitReturnsFirstFinal` | src/wsg.h:58-77 | when a final reply lies within the poll budget, the wait returns a non-pending reply and reads no further than that reply |
| `Device.PrepositionFlags` | src/wsg.h:195-229 | the flags byte is at most 3: bit 0 is stop-on-block, bit 1 is relative move |
| `Device.Succeeded` | src/wsg.h:148 | no contract of its own: a result counts as success only when a reply came and its status is `E_SUCCESS`; the contracts of `Device.Wsg.Home`, `Device.Wsg.Grasp` and `Device.Wsg.Preposition` state their results through it |
| `Device.TareAccepted` | src/wsg.h:155-158 | no contract of its own: a tare counts as done when a reply came with `E_SUCCESS` or `E_NOT_AVAILABLE`; the contract of `Device.Wsg.Tare` states its result through it |
| `Device.HomePayload` | src/wsg.h:141-146 | the home payload is a single byte, the direction's code of at most 2 |
| `Device.GraspPayload` | src/wsg.h:165-167 | the grasp payload is 8 bytes: the 4 width bytes, then the 4 speed bytes |
| `Device.PrepositionPayload` | src/wsg.h:229-232 | the preposition payload is 9 bytes: a flags byte of at most 3, the 4 width bytes, then the 4 speed bytes |
| `Device.UpdatesPayload` | src/wsg.h:246-248 | the update payload is 3 bytes: 1 (always send updates), then two bytes that decode back to the period |
| `Device.FloatPayload` | src/wsg.h:172-175 | no contract of its own: the float's four bytes as they are; `Device.Wsg.SetForceLimit` and `Device.Wsg.SetAcceleration` send it |
| `Device.HandBuiltGraspParams` | wsg.h:71-75 | the hand-built grasp parameters are the 4 width bytes followed by the 4 speed bytes, the same payload the later appends build |
| `Device.SystemInfoOf` | src/wsg.h:93-98 | system info is byte 0 as type, byte 1 as hardware revision, bytes 2-3 as firmware version and bytes 4-7 as serial number, little-endian |
| `Device.LimitsOf` | src/wsg.h:117-126 | the eight limits are the eight consecutive 4-byte floats of the parameters, in declaration order |
| `Device.InfoReply` | src/wsg.h:86-107 | a system-info query succeeds exactly when a reply came with at least 8 parameter bytes, and no reply is `NoResponse` |
| `Device.LimitsReply` | src/wsg.h:109-138 | a limits query succeeds exactly when a reply came with at least 32 parameter bytes, and no reply is `NoResponse` |
| `Device.LimitsFromReply` | src/wsg.h:109-126 | limits a query returns were read from the last reply it consumed, and that reply is final for the limits query |
| `Device.Wsg.constructor` | src/wsg.h:38-44 | a new device has read no replies and sent nothing |
| `Device.Wsg.Send` | src/wsg.h:56 | sending logs the request and puts its frame on the wire, reading nothing |
| `Device.Wsg.Receive` | src/wsg.h:64 | a receive returns the next unread reply and advances past it, or returns nothing when none is left |
| `Device.Wsg.SendAndAwaitResponse` | src/wsg.h:48-79 | the command is sent once, and the response is what the wait specification returns from the unread replies within the timeout |
| `Device.Wsg.Stop` | src/wsg.h:82-84 | sends a stop with an empty payload and awaits nothing |
| `Device.Wsg.GetSystemInfo` | src/wsg.h:86-107 | sends the system-info query and returns the info read from its final reply, or the failure |
| `Device.Wsg.GetPhysicalLimits` | src/wsg.h:109-138 | sends the limits query and returns the limits read from its final reply, or the failure |
| `Device.Wsg.Home` | src/wsg.h:145-149 | sends a home command with the direction byte, waits 4 s, and reports success only on an `E_SUCCESS` reply |
| `Device.Wsg.Tare` | src/wsg.h:152-159 | sends a tare, waits 4 s, and accepts `E_SUCCESS` or `E_NOT_AVAILABLE` |
| `Device.Wsg.Grasp` | src/wsg.h:164-170 | sends width then speed as floats, waits 6 s, and reports success only on `E_SUCCESS` |
| `Device.Wsg.SetForceLimit` | src/wsg.h:172-176 | sends the force as a float, waits 0.1 s, and reports whether any final reply came, whatever its status |
| `Device.Wsg.SetForceLimitNonblocking` | src/wsg.h:178-182 | sends the same force-limit request without waiting |
| `Device.Wsg.SetAcceleration` | src/wsg.h:184-188 | sends the acceleration as a float, waits 0.1 s, and reports whether any final reply came |
| `Device.Wsg.ClearSoftLimits` | src/wsg.h:190-193 | sends the clear request, waits 0.1 s, and reports whether any final reply came |
| `Device.Wsg.PrepositionCommand` | src/wsg.h:225-234 | builds a fresh preposition message whose payload is the flags byte, the width and the speed |
| `Device.Wsg.Preposition` | src/wsg.h:203-209 | sends that preposition, waits 6 s, and reports success only on `E_SUCCESS` |
| `Device.Wsg.PrepositionNonblocking` | src/wsg.h:214-223 | sends the same preposition without waiting |
| `Device.Wsg.TurnOnUpdates` | src/wsg.h:242-252 | sends byte 1 then the 16-bit period for the given stream, and reports whether a final reply came within the timeout; the source throws when none does |
| `Device.After` | src/wsg.h:58-77 | a wait never moves the read cursor backwards |
| `Device.AwaitAnsweredAtOnce` | src/wsg.h:58-77 | when the next reply is final for the command, the wait returns it and reads nothing else |
| `Device.AwaitNeverAnswered` | src/wsg.h:58-77 | when no reply from the cursor on is final for the command, the wait returns nothing |
| `Device.RunUpdates` | src/position_force_control.cc:30-34 | the run of update requests from stream `k` never moves the cursor backwards, and it stops, if at all, at a stream from `k` to 4 |
| `Device.UpdateAnsweredAtOnce` | src/wsg.h:242-252 | an update request answered by the very next reply passes the run on to the next stream, one reply later |
| `Device.UpdatesGoThrough` | src/position_force_control.cc:30-34 | when the five update requests are answered by the next five replies in order, none fails and exactly five replies are read |
| `Device.UpdatesStopAtUnanswered` | src/position_force_control.cc:30-34 | when the requests before stream `j` are answered in order and no later reply answers stream `j`, the run stops at `j` |
| `Device.HomingEnd` | src/position_force_control.cc:37-39 | homing and taring never move the cursor backwards |
| `Device.HomingAnswered` | src/position_force_control.cc:37-39 | when homing inward, homing outward and taring are answered by the next three replies, exactly three replies are read |
| `Device.LimitsAnswered` | src/wsg.h:109-126 | when the next reply is final for the limits query and holds 32 parameter bytes, the query returns the limits read from it |
| `Device.LimitsAt` | src/wsg.h:109-138 | no contract of its own: the result of a limits query whose wait starts at a given reply; `Device.LimitsAnswered` states when it yields limits and what they are |
| `Device.TurnOnStream` | src/wsg.h:242-252 | sends the request for stream `k` with the 5 ms period and the 0.25 s wait. It reports exactly whether the wait found a final reply, moves the cursor to where the wait stopped, and the run of update requests from `k` either stops at `k` or goes on from `k + 1` at the new cursor |
| `Device.TurnOnStatusUpdates` | src/position_force_control.cc:30-34 | turns on system state, grasp state, opening width, speed and force in that order. The stream it stops at and the cursor it leaves are those of `RunUpdates` over the replies, and it sends exactly the update requests up to the one it stops at |
| `Device.HomeAndTare` | src/position_force_control.cc:37-39 | sends home inward, home outward, then tare, whatever their outcomes, and leaves the cursor at `HomingEnd` of the replies |
| `DeviceState.Get` | src/position_force_control.cc:84-111 | each cached quantity is held as the bytes it was copied from: 4 for the state word and the floats, 1 for the grasping state |
| `DeviceState.GetDetermines` | src/position_force_control.cc:84-111 | a cache is determined by its five quantities |
| `DeviceState.Apply` | src/position_force_control.cc:81-113 | no contract of its own: one pass of the `Task` switch; `DeviceState.ApplyRefreshes` states exactly which quantity it overwrites and with what |
| `DeviceState.Drain` | src/position_force_control.cc:79-114 | no contract of its own: the `Task` loop over a batch of replies; `DeviceState.DrainLatest` and `DeviceState.DrainUntouched` state what each quantity ends at |
| `DeviceState.ApplyRefreshes` | src/position_force_control.cc:81-113 | one reply overwrites a quantity exactly when it reports success for that quantity's stream with enough bytes, and then with its leading parameter bytes. Every other quantity stays as it was |
| `DeviceState.DrainSnoc` | src/position_force_control.cc:79-114 | taking one more reply extends the drain by one application |
| `DeviceState.DrainUntouched` | src/position_force_control.cc:79-114 | a quantity that no reply refreshes keeps its value through the drain |
| `DeviceState.DrainLatest` | src/position_force_control.cc:79-114 | after a drain, a quantity holds what its latest refreshing reply carried |
| `DeviceState.DrainConcat` | src/position_force_control.cc:79-114 | two drains over consecutive batches equal one drain over both |
| `PositionForceControl.DeadbandBounds` | src/position_force_control.cc:58-64 | re-requesting the executing target never sends. A request is absorbed exactly when neither quantity moves by a full deadband |
| `PositionForceControl.InDeadband` | src/position_force_control.cc:61-62 | no contract of its own: both the force and the position lie strictly within their deadband of the executing target; `PositionForceControl.DeadbandBounds` states when a request is absorbed |
| `PositionForceControl.CalibrationLogPrefix` | src/position_force_control.cc:26-47 | each calibration outcome sends a prefix of the full 11-request calibration, and only a complete calibration sends all 11 |
| `PositionForceControl.CalibrationOutcome` | src/position_force_control.cc:26-47 | no contract of its own: how a calibration starting at a given reply ends; `PositionForceControl.CalibrationGetsThrough`, `PositionForceControl.CalibrationStopsAtUnanswered` and `PositionForceControl.CalibrationStopsAtUnansweredLimits` state which replies give which outcome |
| `PositionForceControl.PositionForceControl.constructor` | src/position_force_control.h:60-69 | a new controller sends nothing; cached values, targets and limits start at zero, the grasping state at idle |
| `PositionForceControl.CalibrationGetsThrough` | src/position_force_control.cc:26-47 | a gripper that answers every step in order, the limits query with 32 parameter bytes, gets calibration through with the limits of that reply, after all 11 requests |
| `PositionForceControl.CalibrationStopsAtUnanswered` | src/position_force_control.cc:30-34 | with the earlier update requests answered, an update request no later reply answers ends calibration there, after the requests up to it |
| `PositionForceControl.CalibrationStopsAtUnansweredLimits` | src/position_force_control.cc:41-42 | with updates, homing and taring answered, a limits query no later reply answers ends calibration with `LimitsFailed` |
| `PositionForceControl.Calibrate` | src/position_force_control.cc:26-47 | the outcome is `CalibrationOutcome` of the replies, and the limits are those `LimitsAt` reads at the query's cursor. It sends the update requests, the homing, the tare, the limits query, the soft-limit clear and the maximum acceleration in that order, stopping after a failed step, and a final reply to the limits query carries the limits |
| `PositionForceControl.PositionForceControl.DoCalibrationSteps` | src/position_force_control.cc:26-47 | the outcome is `CalibrationOutcome` of the replies; on success the controller keeps the limits read from the limits reply. It sends what `CalibrationLog` lists for that outcome, and the cache and targets are unchanged |
| `PositionForceControl.PositionForceControl.SetPositionAndForce` | src/position_force_control.cc:50-74 | inside both deadbands, nothing is sent and nothing changes. Otherwise it sends the awaited force limit, a stop and a non-blocking absolute clamp-on-block move at maximum speed, and records the new targets |
| `PositionForceControl.PositionForceControl.Absorb` | src/position_force_control.cc:81-113 | one reply updates the cache as `Apply` with speed tracked, and touches nothing else |
| `PositionForceControl.PositionForceControl.Task` | src/position_force_control.cc:77-115 | reads every unread reply, leaving the cache as their drain and sending nothing |
| `PositionForceControl.PositionForceControl.PositionMm` | src/position_force_control.cc:118 | the reported opening width is the cached one, which `Task` leaves at the drain of the replies |
| `PositionForceControl.PositionForceControl.Force` | src/position_force_control.cc:119 | the reported force is the cached one, which `Task` leaves at the drain of the replies |
| `PositionForceControl.PositionForceControl.SpeedMmPerS` | src/position_force_control.cc:120 | the reported speed is the cached one, which `Task` leaves at the drain of the replies |
| `EarlyPositionForceControl.EarlyCalibrationIsPrefix` | position_force_control.cc:22-40 | the early calibration sends exactly what the later one sends up to its limits query |
| `EarlyPositionForceControl.PositionForceControl.constructor` | position_force_control.cc:18-19 | a new controller sends nothing, and its cached values are left uninitialized |
| `EarlyPositionForceControl.EarlyCalibrationGetsThrough` | position_force_control.cc:22-40 | a gripper that answers every update request, homing and taring in order lets the first calibration through after eight replies, with eight requests sent |
| `EarlyPositionForceControl.PositionForceControl.DoCalibrationSteps` | position_force_control.cc:22-40 | the update request it stops at is that of `RunUpdates` over the replies, and so is the cursor. When none fails it homes inward and outward and tares, leaving the cursor at `HomingEnd`, and it sends exactly `EarlyCalibrationLog` of its result |
| `EarlyPositionForceControl.PositionForceControl.Absorb` | position_force_control.cc:68-95 | one reply updates the cache as `Apply` without speed |
| `EarlyPositionForceControl.PositionForceControl.Task` | position_force_control.cc:64-97 | reads every unread reply, leaving the cache as their drain and sending nothing |
| `EarlyPositionForceControl.PositionForceControl.PositionMm` | position_force_control.cc:100 | the reported opening width is the cached one, which `Task` leaves at the drain of the replies |
| `EarlyPositionForceControl.PositionForceControl.Force` | position_force_control.cc:101 | the reported force is the cached one, which `Task` leaves at the drain of the replies |
| `PositionControl.StartupLogPrefix` | src/position_control.cc:18-39 | a failed start-up sends a prefix of the full one, and a missing limits reply comes after everything was sent |
| `PositionControl.StartupOutcome` | src/position_control.cc:18-39 | no contract of its own: how a construction starting at a given reply ends; `PositionControl.StartupGetsThrough`, `PositionControl.StartupStopsAtUnanswered` and `PositionControl.StartupStopsAtUnansweredLimits` state which replies give which outcome |
| `PositionControl.StartupReordersCalibration` | src/position_control.cc:20-38 | start-up sends the same requests as the position/force calibration up to its limits query, plus the initial force limit, in another order |
| `PositionControl.PositionControl.Init` | src/position_control.h:57-64 | a constructed controller's position and force hold -1; its system and grasping states are uninitialized |
| `PositionControl.StartupPrepared` | src/position_control.cc:20-25 | when the force limit, homing and taring are answered by the next four replies, the update requests read from the fifth |
| `PositionControl.StartupGetsThrough` | src/position_control.cc:18-39 | a gripper that answers every step in order, the limits query with 32 parameter bytes, lets construction through with the limits of that reply, after all 10 requests |
| `PositionControl.StartupStopsAtUnanswered` | src/position_control.cc:30-34 | with the earlier steps answered, an update request no later reply answers ends construction there, after `5 + j` requests |
| `PositionControl.StartupStopsAtUnansweredLimits` | src/position_control.cc:37-38 | with every earlier step answered, a limits query no later reply answers fails construction after all 10 requests |
| `PositionControl.Prepare` | src/position_control.cc:20-25 | sends the force limit, home inward, home outward and tare, and leaves the cursor at `StartupUpdatesAt` of the replies |
| `PositionControl.Start` | src/position_control.cc:18-39 | the outcome is `StartupOutcome` of the replies, and the limits are those `LimitsAt` reads at the query's cursor. It sends the opening requests, the update requests up to a failing one, or all of them and the limits query |
| `PositionControl.PositionControl.Create` | src/position_control.cc:18-39 | the outcome is `StartupOutcome` of the replies. A controller exists exactly when that outcome is `Calibrated`, its limits are those read from the limits reply, and it sends `StartupLog` of the outcome |
| `PositionControl.PositionControl.SetPosition` | src/position_control.cc:42-50 | sends a stop, then a non-blocking absolute clamp-on-block move, and reads nothing |
| `PositionControl.PositionControl.SetForceLimit` | src/position_control.cc:52-55 | sends the force limit and consumes exactly what its wait consumes |
| `PositionControl.PositionControl.Absorb` | src/position_control.cc:61-88 | one reply updates the cache as `Apply` without speed |
| `PositionControl.PositionControl.Task` | src/position_control.cc:57-90 | reads every unread reply, leaving the cache as their drain and sending nothing |
| `PositionControl.PositionControl.PositionMm` | src/position_control.cc:93 | the reported opening width is the cached one, which `Task` leaves at the drain of the replies |
| `PositionControl.PositionControl.Force` | src/position_control.cc:94 | the reported force is the cached one, which `Task` leaves at the drain of the replies |
| `CsvEvents.IndexOf` | tools/lcm_plot.py:82 | the index found is the first occurrence of the name, and there is none exactly when the name is absent |
| `CsvEvents.Qualify` | tools/lcm_plot.py:78-80 | no contract of its own: the dictionary comprehension that builds an event; `CsvEvents.QualifyKeys` and `CsvEvents.QualifyValue` state its keys and values |
| `CsvEvents.QualifyKeys` | tools/lcm_plot.py:78-80 | the keys of a qualified row are exactly the prefix plus the field name of each value cell |
| `CsvEvents.QualifyValue` | tools/lcm_plot.py:79-80 | a value cell whose field name does not come again later is stored under its qualified name |
| `CsvEvents.RowEffectOf` | tools/lcm_plot.py:71-89 | no contract of its own: one pass of the loop body; `CsvEvents.YieldedEventKeys`, `CsvEvents.YieldedEventValue` and `CsvEvents.LaterHeaderReplaces` state what a row yields or registers |
| `CsvEvents.ExtractFrom` | tools/lcm_plot.py:70-89 | no contract of its own: the loop over rows from given headers; `CsvEvents.ExtractConcat`, `CsvEvents.AtMostOneEventPerDataRow`, `CsvEvents.NoHeaderNoEvents` and `LcmPlot.ExtractedStamped` state its events and its exception |
| `CsvEvents.Extract` | tools/lcm_plot.py:64-89 | no contract of its own: the reader starting with no headers; `CsvEvents.ExtractEvents` is proved equal to it |
| `CsvEvents.ExtractEvents` | tools/lcm_plot.py:64-89 | the events yielded and the exception raised are those of the row-by-row specification `Extract` |
| `CsvEvents.ExtractConcat` | tools/schunk_plot.py:46-65 | reading two batches of rows is reading the first, then the second with the first one's headers, unless the first raised |
| `CsvEvents.AtMostOneEventPerDataRow` | tools/lcm_plot.py:70-89 | there are no more events than data rows, so headers and short rows yield none |
| `CsvEvents.NoHeaderNoEvents` | tools/lcm_plot.py:74-89 | without a header row nothing is yielded and nothing is raised |
| `CsvEvents.LaterHeaderReplaces` | tools/lcm_plot.py:74-75 | a later header for a message type replaces the earlier field names |
| `CsvEvents.YieldedEventKeys` | tools/lcm_plot.py:76-85 | a yielded event holds "timestamp" from the header's timestamp column. Its other keys are exactly the qualified names of the fields with a value cell |
| `CsvEvents.YieldedEventValue` | tools/lcm_plot.py:79-80 | a field's cell is found under `channel.type.field` when the field name does not repeat later |
| `LcmPlot.AdjustKeepsTight` | tools/lcm_plot.py:58-62 | widening tight bounds by a value gives the tight bounds of the set with that value |
| `LcmPlot.AdjustBounds` | tools/lcm_plot.py:58-62 | each bounds array becomes the minimum and the maximum of the point's coordinate and the old bounds |
| `LcmPlot.ExtractedStamped` | tools/lcm_plot.py:81-85 | every event the reader yields carries "timestamp", which `plot_events` and `plot_differences` read from every event |
| `LcmPlot.SeriesOf` | tools/lcm_plot.py:23-28 | no contract of its own: the points of a field, one per event that carries it, in event order; `LcmPlot.SeriesStep`, `LcmPlot.PlotAllEvents` and `LcmPlot.PlotEvents` state that the loops build it |
| `LcmPlot.AddPointsOnce` | tools/lcm_plot.py:25-28 | one event appends exactly its plotted fields' points, in listing order, to their own series |
| `LcmPlot.PlotItem` | tools/schunk_plot.py:28-34 | one plotted item adds its point and keeps the bounds tight over every value seen |
| `LcmPlot.PlotEvent` | tools/lcm_plot.py:24-29 | one event, item by item in its iteration order, adds the points of its plotted fields and keeps the bounds tight over the values seen before it and its own |
| `LcmPlot.SeriesStep` | tools/lcm_plot.py:23-29 | taking in every item of the next event extends each requested series by exactly that event's point, and the plotted x and y values by that event's |
| `LcmPlot.PlotAllEvents` | tools/lcm_plot.py:23-29 | after the events in order, each series holds its field's points from every event, and the bounds are tight over every plotted x and y |
| `LcmPlot.PlotEvents` | tools/lcm_plot.py:14-33 | each requested field's series is its points in event order. The axis is the tight minimum and maximum of every plotted x and y, or +inf/-inf when nothing is plotted |
| `LcmPlot.Recent` | tools/lcm_plot.py:45 | no contract of its own: the most recent value of each reported field; `LcmPlot.RecentKeys` states which fields have one |
| `LcmPlot.DiffSeries` | tools/lcm_plot.py:46-53 | no contract of its own: the differences plotted for a pair; `LcmPlot.DiffSeriesEmptyIff`, `LcmPlot.DiffSeriesLast` and `LcmPlot.DiffSeriesBound` state when it is empty, its last point and its length |
| `LcmPlot.RecentKeys` | tools/lcm_plot.py:39-45 | a field has a most recent value exactly when some update reported it |
| `LcmPlot.DiffSeriesEmptyIff` | tools/lcm_plot.py:46-53 | a pair has no differences exactly when one of its fields was never reported |
| `LcmPlot.DiffSeriesLast` | tools/lcm_plot.py:48-53 | the last difference of a pair is the first field's latest value minus the second's |
| `LcmPlot.DiffSeriesBound` | tools/lcm_plot.py:46-50 | a pair gets at most one difference per update of one of its fields |
| `LcmPlot.UpdatesFromEvents` | tools/lcm_plot.py:41-45 | every reported update is of a participating field that some event carries |
| `LcmPlot.EventsReported` | tools/lcm_plot.py:41-45 | every participating field that some event carries is reported |
| `LcmPlot.EventReports` | tools/lcm_plot.py:43-45 | within one event, the participating fields it carries are reported and nothing else |
| `LcmPlot.DifferencesEmptyIff` | tools/lcm_plot.py:35-53 | over a whole stream, a pair is plotted with no points exactly when one of its fields is in no event |
| `LcmPlot.AllDiffsSnoc` | tools/lcm_plot.py:43-53 | one more update appends the new differences of exactly the pairs that update touches |
| `LcmPlot.RecordDifferences` | tools/lcm_plot.py:46-53 | each pair touching the updated field gets one new point once both its fields have values |
| `LcmPlot.PlotEventDifferences` | tools/lcm_plot.py:42-53 | one event extends the differences and the latest values by that event's updates |
| `LcmPlot.PlotDifferences` | tools/lcm_plot.py:35-56 | each requested pair's series is its differences over all the updates the events report, in order |

The `extract_events` and `plot_events` functions of `tools/schunk_plot.py`
(lines 40-65 and 14-38) are the same code as in `tools/lcm_plot.py`, with
`_adjust_bounds` written inline. `CsvEvents.ExtractEvents` and
`LcmPlot.PlotEvents` model both scripts.

When both fields of a pair appear in one event, `plot_differences` takes the
two fields one after the other, in dict order. After each one it appends a
point if both fields have a value by then. So the pair gets two points at
that timestamp when the field taken second already had a value from an
earlier event, and the first of them mixes a new value with a stale one.
When the pair first appears together, it gets one point. The model takes the
fields in the order given by the `order` parameter.

The controllers do what their code does and no more:
- `SetPositionAndForce` sends its targets as given. It does not clamp them
  to the physical limits and does not test for a reversal of direction.
- Its deadband compares a request with the target being executed, not with
  the measured force.
- It waits for the reply to the force limit.
- Calibration sends no system-info query.
- It does not look at the outcome of homing, taring, clearing the soft
  limits or setting the acceleration.
- Received frames are parsed without checking their checksum.

## Left out

- Sockets, UDP and the clock are not modelled. Replies are a fixed stream
  read one per poll, and a timeout is a poll budget of one receive per
  millisecond.
- Console output (`std::cout`, `std::cerr`, the `DEBUG` traces) is not modelled.
- Float arithmetic is not modelled. A float is its four bytes, and the
  narrowing of a `double` to a `float` is a parameter. Double-to-float
  round trips are taken as exact. The default `-1` of the position
  controller is stored as the bytes of the float -1.0.
- Python's `int()` and `float()` are parameters. Their `ValueError` on
  malformed text, NaN and infinite values are not modelled.
- `crc.h` is not part of this model. CRC16 is a parameter.
- Device.Wsg.GetSystemInfo: when a reply carries fewer than 8 parameter
  bytes, the source reads past the end of the vector. The model returns
  `ShortParams` instead.
- Device.Wsg.GetPhysicalLimits: when a reply carries fewer than 32
  parameter bytes, the source reads past the end of the vector. The model
  returns `ShortParams` instead.
- DeviceState.ApplyRefreshes: a status update with too few parameter bytes
  makes the source read past the end of the vector. The model ignores such
  a reply.
- PositionForceControl.PositionForceControl.DoCalibrationSteps is declared
  to return a `StatusCode` but falls off its end without a `return`. The
  model returns the outcome of the start-up instead.
- The position controller's header declares `DoCalibrationSteps`, but no
  definition exists. The model has no such method.
- EarlyPositionForceControl.PositionForceControl.SetPositionAndForce has an
  empty body in the source. The model's method is empty too and has no contract.
- Fields the source never initializes are modelled as a constructor
  parameter `indeterminate`. These are the early controller's cached values
  and the position controller's system and grasping states.
- Status updates that arrive during a blocking wait are discarded by the
  wait, as in the source. The model does not separate them from other
  skipped replies.
- `matplotlib` calls, `argparse`, the `main` functions and CSV tokenizing
  are not modelled.
- Also not modelled from `tools/schunk_plot.py`:
  - the unused `field_indices` dictionary;
  - the `fields_to_plot is None` case of its `main`.
- Laziness is not modelled. `extract_events` is a generator that
  `tools/schunk_plot.py` consumes lazily and `tools/lcm_plot.py` first turns
  into a list. The model yields a whole sequence of events, followed by the
  exception, if any, that ended the stream.
- Arrival times are not modelled. The replies are the whole session's, and
  a reply is there to be read as soon as every earlier one has been read.
  In consequence:
  - a receive comes back empty only when the session has no reply left;
  - a `Task` call takes in every later reply of the session, and a wait
    after it finds nothing;
  - a wait times out only after reading as many non-final replies as it
    has polls, or when the session's replies run out.
- PositionForceControl.PositionForceControl.DoCalibrationSteps: a limits
  reply with fewer than 32 parameter bytes ends calibration with
  `LimitsFailed`. The source reads past the end of the reply, keeps
  whatever it read as the limits, and goes on to clear the soft limits and
  set the acceleration.
- PositionForceControl.Calibrate: the same as `DoCalibrationSteps` for a
  short limits reply.
- PositionControl.PositionControl.Create: a limits reply with fewer than 32
  parameter bytes gives no controller. The source reads past the end of the
  reply and constructs the controller with whatever it read.
- PositionControl.Start: the same as `Create` for a short limits reply.
- EarlyPositionForceControl.PositionForceControl.DoCalibrationSteps: the
  first driver sends each update request inside an `assert`
  (wsg.h:89). Built with `NDEBUG`, it would send nothing and wait for
  nothing. The model assumes assertions are enabled.
- `src/position_force_control.cc` uses `current_target_force_` and
  `current_target_pos_mm_`, while its header declares
  `executing_target_position_mm_` and `executing_force_`. The model has one
  pair of targets, starting at zero as the header's fields do.
- `wsg_command_message.h` defines `Serialize` inline, and
  `wsg_command_message.cc` defines it a second time. The two bodies are the
  same. `AppendToPayload` is modelled from the `.cc` file.

## Findings

| source | as written | input that shows it | evidently intended | confidence | as-written member | corrected member |
|---|---|---|---|---|---|---|
| wsg_command_message.cc:17 | the high length byte is `(payload_.size() << 8) & 0xFF`, which is always 0 | a 256-byte payload is framed with declared size 0, and `Parse` rejects the frame | `(payload_.size() >> 8) & 0xFF`, the high byte of the length | not executed | `CommandMessage.Frame`, `ReturnMessage.LongPayloadUnparseable` | `CommandMessage.FrameCorrected`, `ReturnMessage.ParseFrameCorrected` |

`CommandMessage.Frame` is the frame as written. `CommandMessage.FrameCorrected`
writes the intended length byte. `CommandMessage.FrameCorrectedAgrees` shows
that the two agree on every payload under 256 bytes. The driver only sends
payloads of at most 9 bytes, so `Serialize` keeps the as-written frame.
