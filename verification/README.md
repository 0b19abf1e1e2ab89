# Verified model of the robot's command and feedback path

This project models, in Dafny, five connected pieces of the robot software and proves what they are for.

1. **Serial framing** (`Crc16`, `CrcDivision`, `FrameCodec`, `WireFormat`, `FrameScan`, `StreamParser`, `FeedbackPath`). The
   MODBUS CRC-16 (section 6.2.2 of MODBUS over Serial Line Specification and Implementation Guide V1.02), the fixed-size frames,
   and the resynchronising parser over a 2040-byte buffer. The reference is a greedy leftmost scan of the whole byte stream.
2. **Command mailbox and transport** (`CommandQueue`, `SpscRing`, `CommandMailbox`, `SerialTransport`, `TransportOutput`,
   `TransportOrder`). The single-producer/single-consumer ring at the granularity of single atomic accesses, the mailbox with
   its power-off latch and 64-slot completion history, and the transport as a state machine whose steps interleave freely.
3. **Arm power-on and motion safety** (`ArmPowerOn`, `CommandSafety`, `HardwareModel`, `Activation`, `HardwareSteps`,
   `PowerTrace`, `Motion`, `LimitKeeping`, `Release`, `HardwareSafety`, `CallOutcomes`, `ActivationOutcomes`,
   `RangeCounterexample`, `StandardSystem`). The classes change their fields as the code does; each method equals a function of
   the fields. What each call does is also said of its inputs alone, and the safety results are about every activation followed
   by every sequence of `read` and `write` calls and serial errors, told by a log that the code does not keep. `EndToEnd` runs
   this hardware, with all its lifecycle callbacks, on top of the transport of part 2; `FaultScenario` is one such run.
4. **Joint/motor mapping** (`StandardMapping`, `MotorCommands`), in both directions, over the reals.
5. **Teleoperation session and watchdog** (`ClientSession`, `VrStream`, `VrStreamRuns`, `VrStreamInputs`, `PoseMapper`,
   `TeleopModel`, `TeleopManager`, `TeleopSafety`, `Reclutch`, `TeleopRuns`, `TeleopInputs`, `TeleopTicks`, `TeleopOutcomes`,
   `TeleopCommands`, `TeleopButtons`). The results are about every run of calls, in the values passed to them.

Doubles are reals plus one value `NonFinite` for every NaN and infinity; times are integers or reals; the 64-bit counters carry
their maximum. What the clock, the operating system, the transport, the controllers and the feedback decoder answer is an
argument of the call, and the error that the I/O thread reports at any time is an input of its own, so the results hold for all
of them. `dafny verify dfyconfig.toml` checks the project.

## Where code and documentation differ

- The package documentation says a command outside the limits is clamped; the code faults in `validate`. The model faults.
- It says the hold position is taken once, before power-on; `write` uses the latest measurement `read` has taken. So does the
  model, and `EnabledMotionIsBounded` speaks of the latest one.
- It lists an excessive step of a command among the faults; the code limits the step and goes on.
- The watchdog section of the teleoperation documentation lists a disconnected hand among the reasons for SAFE_HOLD; the code,
  like another section, leaves a disconnected side out of the test.
- A chunk is safe up to 1786 bytes, but the receive buffer can deliver 2048: `FeedbackPath.OverlongReadLosesFrame`, with the
  exact bound in `FeedbackPath.SafeExactlyUpToBound`.
- The measurement of a recovering joint is not bounds-checked, so the widened limits can be left through a hold frame:
  `RangeCounterexample.HoldLeavesRange`, with the exact condition in `LimitKeeping.NextFrameInRangeIff` for one frame and
  `HardwareSafety.FramesStayInRangeIff` for a session.
- `read` observes the latest feedback without looking at its sequence, so the gate of `ArmsAreEnabledOnlyWhenEarned` counts
  observations, not distinct frames.

## Model

| member | source | states |
|---|---|---|
| `Crc16.Compute` | src/bw_std_control/src/frame_codec.cpp:28-44 | the bitwise CRC loop over a byte range computes the MODBUS register of those bytes, from 0xFFFF with polynomial 0xA001 |
| `Crc16.AbsorbInjective` | src/bw_std_control/src/frame_codec.cpp:34-42 | for a fixed byte, one byte step of the CRC is injective on the 16-bit register |
| `Crc16.AbsorbPairInjective` | src/bw_std_control/src/frame_codec.cpp:34-42 | from a fixed register, two byte steps are injective on the pair of bytes |
| `Crc16.ZeroIffOwnChecksum` | src/bw_std_control/src/frame_codec.cpp:84-88 | a register followed by two bytes comes to zero exactly when those bytes are the register, low byte first |
| `Folds.WindowChangesFold` | src/bw_std_control/src/frame_codec.cpp:34-42 | two equally long inputs that differ only inside a window of two adjacent elements leave different registers, for every step function with those two injectivities |
| `CrcDivision.RegisterIsRemainder` | src/bw_std_control/src/frame_codec.cpp:11-44 | the register of every message is the remainder of long division by x^16 + x^15 + x^2 + 1 of the message bits, lowest bit of each byte first, times x^16, with the first sixteen coefficients inverted |
| `CrcDivision.CheckValues` | src/bw_std_control/src/frame_codec.cpp:11-44 | the published check value 0x4B37 of the digits 1 to 9, 0x40BF of one zero byte, 0xFFFF of no byte |
| `WireFormat.CommandFrameBytes` | src/bw_std_control/src/frame_codec.cpp:46-57 | the 256 bytes in numbers, 55 AA 01 F9 00, payload, and a checksum that is the polynomial remainder |
| `WireFormat.ChassisFrameBytes` | src/bw_std_control/src/frame_codec.cpp:59-72 | the 44 bytes in numbers, 55 AA 21 25 00, payload, and the same checksum |
| `WireFormat.FeedbackFrameBytes` | src/bw_std_control/src/frame_codec.cpp:74-91 | a frame is valid exactly when it has 255 bytes, begins 55 AA 02 F8 00, and its last two bytes are the polynomial remainder |
| `FrameCodec.EncodeCommandFrame` | src/bw_std_control/src/frame_codec.cpp:46-57 | the returned 256 bytes are header, type 0x01, length, payload and CRC over type to payload |
| `FrameCodec.EncodeChassisCommandFrame` | src/bw_std_control/src/frame_codec.cpp:59-72 | the same for the 44-byte chassis frame of type 0x21 |
| `FrameCodec.DecodeFeedbackFrame` | src/bw_std_control/src/frame_codec.cpp:74-91 | accepts exactly the valid feedback frames of exactly 255 bytes and returns their payload |
| `FrameCodec.EncodedIsAccepted` | src/bw_std_control/src/frame_codec.cpp:74-91 | the frame of every 248-byte payload is valid and decodes to that payload |
| `FrameCodec.AcceptedIsEncoded` | src/bw_std_control/src/frame_codec.cpp:74-91 | an accepted frame is the encoding of its payload, so no two frames carry one payload |
| `FrameCodec.AdjacentCorruptionIsDetected` | src/bw_std_control/src/frame_codec.cpp:28-91 | two distinct 255-byte frames that differ only within two adjacent bytes, anywhere in the frame, are never both accepted |
| `StreamParser.StreamParser.Append` | src/bw_std_control/src/frame_codec.cpp:93-110 | the buffer then holds the last bytes, up to its 2040-byte capacity, of what it held followed by the new bytes |
| `StreamParser.StreamParser.DiscardPrefix` | src/bw_std_control/src/frame_codec.cpp:159-169 | removes exactly that many bytes from the front, or all |
| `StreamParser.StreamParser.PopFeedback` | src/bw_std_control/src/frame_codec.cpp:112-152 | true iff some offset starts a complete valid frame: then returns the payload at the least such offset and keeps exactly the bytes after it; false drops only offsets at which no continuation can make a valid frame, and keeps at most 254 bytes |
| `StreamParser.PrefixKillsOffset` | src/bw_std_control/src/frame_codec.cpp:114-139 | an offset whose first bytes contradict header, type or length starts no valid frame, whatever bytes follow |
| `StreamParser.LastBytesOfJoin` | src/bw_std_control/src/frame_codec.cpp:98-107 | keeping the last bytes of a joined stream depends only on the last bytes of its first part |
| `FrameScan.PopResumes` | src/bw_std_control/src/frame_codec.cpp:144-149 | after the least frame is taken, scanning the rest with any later bytes yields the remaining frames of the whole scan |
| `FrameScan.DropResumes` | src/bw_std_control/src/frame_codec.cpp:121-146 | dropping offsets that can start no frame loses nothing of the scan of any continuation |
| `FrameScan.BackToBack` | src/bw_std_control/src/frame_codec.cpp:112-152 | frames sent back to back come out of the leftmost scan one by one |
| `FeedbackPath.FeedbackReceiver.HandleSerialData` | src/bw_std_control/src/standard_system_hardware.cpp:1089-1119 | one chunk publishes, in order, exactly the frames of the leftmost scan of the buffered bytes and leaves at most 254 bytes |
| `FeedbackPath.ChunkingIndependence` | src/bw_std_control/src/standard_system_hardware.cpp:1089-1119 | however a byte stream is cut into chunks that do not overflow, the published payloads are those of one leftmost-frame scan of the whole stream |
| `FeedbackPath.SafeChunksNeverOverflow` | src/bw_std_control/src/frame_codec.cpp:93-110 | chunks of at most 1786 bytes never overflow, whatever bytes they hold |
| `FeedbackPath.WellFormedStreamIsPublished` | src/bw_std_control/src/standard_system_hardware.cpp:1089-1119 | a stream of well-formed frames back to back, however cut without overflow, publishes exactly its payloads |
| `FeedbackPath.RunExists` | src/bw_std_control/src/standard_system_hardware.cpp:1089-1119 | every list of chunks has a run, so none of these results is about nothing |
| `FeedbackPath.ReceiveAll` | src/bw_std_control/src/async_serial_transport.cpp:124-142 | the receiver, fed one chunk after the other, goes through such a run and publishes its payloads |
| `FeedbackPath.OverlongReadLosesFrame` | src/bw_std_control/src/async_serial_transport.cpp:124-142 | there is a run, of a 254-byte read and one of 1787 bytes, which the 2048-byte receive buffer can deliver, that publishes nothing although the stream holds a valid frame |
| `FeedbackPath.SafeExactlyUpToBound` | src/bw_std_control/src/frame_codec.cpp:93-152 | for every bound b: all runs with chunks of at most b bytes publish the scan of the whole stream if and only if b is at most 1786 |
| `CommandQueue.CommandQueue.TryPush` | src/bw_std_control/src/command_queue.cpp:9-21 | appends the command to the queue contents, or fails and changes nothing exactly when four are pending |
| `CommandQueue.CommandQueue.TryPop` | src/bw_std_control/src/command_queue.cpp:30-43 | removes and returns the oldest command, or fails exactly when there is none |
| `CommandQueue.CommandQueue.ClearFromConsumer` | src/bw_std_control/src/command_queue.cpp:45-50 | leaves the queue empty |
| `SpscRing.RingIsABoundedFifo` | src/bw_std_control/src/command_queue.cpp:9-43 | in every interleaving of single loads, slot accesses and stores: popped is a prefix of pushed, at most four are pending, and the two threads are never inside the same slot |
| `SpscRing.FailuresAreExact` | src/bw_std_control/src/command_queue.cpp:13-37 | a push fails exactly when the queue was full at its load of the tail, a pop exactly when it was empty at its load of the head |
| `SpscRing.EveryStepIsAQueueStep` | src/bw_std_control/src/command_queue.cpp:9-43 | publishing the head enqueues and publishing the tail dequeues the very item returned; every other step leaves the abstract queue unchanged |
| `CommandMailbox.RecordIn` | src/bw_std_control/src/command_queue.cpp:137-143 | one completion overwrites its slot of the 64-slot history |
| `CommandMailbox.CommandMailbox.TryPushNormal` | src/bw_std_control/src/command_queue.cpp:76-90 | refused for generation 0 or the latched one, otherwise uses up a sequence and queues behind the pending normal commands; the whole new mailbox is stated |
| `CommandMailbox.CommandMailbox.TryPushPowerOff` | src/bw_std_control/src/command_queue.cpp:92-104 | latches the generation even when it then has to return 0; the whole new mailbox is stated |
| `CommandMailbox.CommandMailbox.TryPopNext` | src/bw_std_control/src/command_queue.cpp:106-129 | takes the session's oldest power-off, else nothing while the session is latched, else its oldest normal command; drops entries of other sessions on the way |
| `CommandMailbox.CommandMailbox.IsSequenceCompleted` | src/bw_std_control/src/command_queue.cpp:145-149 | answers whether the history slot of the sequence holds that sequence |
| `CommandMailbox.CommandMailbox.CompletePowerOffFromConsumer` | src/bw_std_control/src/command_queue.cpp:151-171 | records the power-off and all power-offs still queued for the session, empties both queues, and opens the latch only if it is this session's |
| `CommandMailbox.CommandMailbox.ClearFromConsumer` | src/bw_std_control/src/command_queue.cpp:189-196 | empties both queues and opens the latch |
| `SerialTransport.CompletionsIncrease` | src/bw_std_control/src/command_queue.cpp:137-171 | over every run of the transport, completions are recorded in strictly increasing sequence order, coalesced power-offs included, and only for sequences handed out |
| `SerialTransport.HistoryAnswersAsASet` | src/bw_std_control/src/command_queue.cpp:137-149 | `sequence_completed` is never true for an uncompleted sequence, and is exact for every sequence with fewer than 64 handed out after it |
| `SerialTransport.SequencesAreUnique` | src/bw_std_control/src/command_queue.cpp:64-74 | a sequence is handed out once and the counter never wraps |
| `SerialTransport.PowerOffHoldsNormalFrames` | src/bw_std_control/src/command_queue.cpp:92-129 | after a power-off push for the live session, even one that returned 0, nothing but power-offs is taken until one of that session completes or the mailbox is cleared |
| `SerialTransport.NoStaleReplay` | src/bw_std_control/src/command_queue.cpp:151-171 | every normal frame taken after a power-off completed was pushed after it completed |
| `SerialTransport.LatchIsKept` | src/bw_std_control/src/command_queue.cpp:151-171 | over every run, the latch of a session stays until a power-off of that session completes or the mailbox is cleared, either of which opens it, or another power-off is pushed; completions of other sessions never release it |
| `SerialTransport.SessionsSendOnlyTheirOwn` | src/bw_std_control/src/async_serial_transport.cpp:68-190 | every frame a session writes, the last one of `close` included, was pushed by a call whose first read returned that session's generation |
| `SerialTransport.NonZeroReturnMeansOneSession` | src/bw_std_control/src/async_serial_transport.cpp:214-278 | a non-zero return means one and the same session was active at both reads and the frame was pushed under that sequence |
| `TransportOrder.OpenGetsFreshGeneration` | src/bw_std_control/src/async_serial_transport.cpp:215-247 | a transport at rest can be opened exactly while generations are left, with empty queues and under a generation that no push has used |
| `TransportOrder.PopTakesOldest` | src/bw_std_control/src/command_queue.cpp:106-129 | a pop takes the oldest power-off of the session; without one the oldest normal command of the session unless the latch holds it back; and nothing exactly when there is neither |
| `TransportOrder.NoneIsSkipped` | src/bw_std_control/src/command_queue.cpp:106-129 | over every run: when a frame is taken, every earlier pushed frame of its kind and session was taken before or was still queued when a completed power-off, `open` or `close` emptied the queues |
| `TransportOrder.TakenInOrder` | src/bw_std_control/src/command_queue.cpp:106-129 | over every run: frames of one kind are taken in the order of their pushes, none twice |
| `TransportOrder.PushGetsInIff` | src/bw_std_control/src/command_queue.cpp:64-104 | a push gets in exactly when fewer than 4 of its kind are queued, sequences are left, and, if normal, its session is not latched; it gets in last |
| `TransportOrder.CloseWritesPowerOff` | src/bw_std_control/src/async_serial_transport.cpp:74-125 | a power-off still queued when `close` begins to drain is completed by a write under way, or the last frame the session writes is this power-off or a later one |
| `ArmPowerOn.ArmPowerOnSequence.Reset` | src/bw_std_control/src/arm_power_on_sequence.cpp:45-52 | back to awaiting ready feedback with nothing counted |
| `ArmPowerOn.ArmPowerOnSequence.ObserveFeedback` | src/bw_std_control/src/arm_power_on_sequence.cpp:79-102 | counts usable frames up to the required number and starts over at an unusable one, unless the arms are enabled; answers whether the gate is passed |
| `ArmPowerOn.ArmPowerOnSequence.NotePrechargeQueued` | src/bw_std_control/src/arm_power_on_sequence.cpp:104-121 | the first precharge after the gate starts the clock, later ones only replace the pending sequence |
| `ArmPowerOn.ArmPowerOnSequence.IsPrechargeCompleted` | src/bw_std_control/src/arm_power_on_sequence.cpp:123-131 | pending write completed, latest feedback usable, and the minimum duration over |
| `ArmPowerOn.ArmPowerOnSequence.MarkArmsEnabled` | src/bw_std_control/src/arm_power_on_sequence.cpp:133-138 | enables only out of a running precharge |
| `CommandSafety.CheckAuxiliaryLimits` | src/bw_std_control/src/command_safety.cpp:18-73 | passes iff all base velocities are finite and all head axes are within limits and 0.01 tolerance; otherwise names the first offender, base before head, everything before it passing |
| `CommandSafety.StartupLimitRecovery.Begin` | src/bw_std_control/src/command_safety.cpp:105-147 | succeeds iff every joint is within its widened limits and the auxiliaries pass; then each joint outside its hard limits recovers in the inward direction, otherwise nothing does |
| `CommandSafety.StartupLimitRecovery.Validate` | src/bw_std_control/src/command_safety.cpp:149-197 | accepts iff every settled joint is in its widened limits, every recovering joint moves inward without passing the opposite limit, and the auxiliaries pass |
| `CommandSafety.StartupLimitRecovery.NoteCommandQueued` | src/bw_std_control/src/command_safety.cpp:199-230 | remembers, per recovering joint, the first command that moves it inward and inside its limits |
| `CommandSafety.StartupLimitRecovery.UpdateMeasuredState` | src/bw_std_control/src/command_safety.cpp:232-277 | per joint: bounds check when settled, completion bookkeeping and release when recovering; stops at the first faulty joint |
| `CommandSafety.LimitCommandStep` | src/bw_std_control/src/command_safety.cpp:382-403 | succeeds iff period, velocities, previous and commanded values are usable; then every value is the commanded one clamped around the previous one |
| `CommandSafety.LimitedStepStaysBetween` | src/bw_std_control/src/command_safety.cpp:382-403 | a limited value lies between the previous and the commanded one, at most velocity times time away, and falls short of the command only by going exactly that far |
| `CallOutcomes.ReadStaysActiveIff` | src/bw_std_control/src/standard_system_hardware.cpp:855-933 | an active hardware stays active in `read` iff there is no serial fault and the feedback, if any, is young enough, decodes, could be stored or has failed at most 10 times, finds settled joints in their widened limits and the head within 0.01 of its own; otherwise it ends inactive and asks for a power-off. The return code is OK iff in addition there is feedback |
| `CallOutcomes.ReadRecords` | src/bw_std_control/src/standard_system_hardware.cpp:855-933 | a fresh frame is always observed; a good one is recorded in order, becomes the hold, and gives head pitch and yaw; without feedback nothing changes |
| `CallOutcomes.WriteStaysActiveIff` | src/bw_std_control/src/standard_system_hardware.cpp:935-1087 | an active powered hardware stays active in `write` iff there is no fault, the port is open, the period is positive, the command can be read or has failed at most 10 times, is within the widened limits or leads recovering joints inward, and a due frame can be limited, encoded and queued |
| `CallOutcomes.FaultingWritePowersDown` | src/bw_std_control/src/standard_system_hardware.cpp:1233-1269 | a `write` that deactivates asks for a power-off last, with the base at rest and the head as last known |
| `CallOutcomes.WriteRecords` | src/bw_std_control/src/standard_system_hardware.cpp:935-1087 | a good `write` adds its period; a due one hands over one frame: a wakeup while some are left, else 0x00 without a power request, 0x3D when the arms are enabled or their precharge is over, 0x25 before; the first enabled frame holds the measurement, every other goes towards the command as far as the velocities allow |
| `CallOutcomes.ErrorDeactivates` | src/bw_std_control/src/standard_system_hardware.cpp:1125-1131 | over every run: the first `read`, or powered `write`, after a serial error leaves the hardware inactive |
| `CallOutcomes.LifecycleEndsInactive` | src/bw_std_control/src/standard_system_hardware.cpp:512-853 | deactivation, shutdown and errors end inactive with a power-off asked for; configuring clears the fault; each forgets the recovery |
| `ActivationOutcomes.GateOpensIff` | src/bw_std_control/src/standard_system_hardware.cpp:694-740 | the first phase ends at the first poll that completes the required number of usable frames in a row, counting only frames not shown before and not too old, with no fault until then; otherwise it fails |
| `ActivationOutcomes.PrechargeSucceedsIff` | src/bw_std_control/src/standard_system_hardware.cpp:757-801 | the second phase succeeds at the first tick that finds the latest precharge frame written and the first one old enough, iff no earlier tick had a fault, a due frame that could not be queued, or a new frame with unusable arms |
| `ActivationOutcomes.PoweredActivationIff` | src/bw_std_control/src/standard_system_hardware.cpp:554-645 | activation with software power succeeds iff the gate opens on a position within limits and tolerance, the precharge succeeds, and the first enabled frame is encoded and queued |
| `ActivationOutcomes.UnpoweredActivationIff` | src/bw_std_control/src/standard_system_hardware.cpp:566-605 | without software power it succeeds iff the first feedback is fresh and decodes and a frame is queued, which carries 0x00 |
| `ActivationOutcomes.ActivationHoldsGateFrame` | src/bw_std_control/src/standard_system_hardware.cpp:554-645 | after a powered activation the first 0x3D frame, the hold and the start of each recovery are the position of the gate frame, and 200 wakeup frames are due |
| `StandardSystem.StandardSystemHardware.Read` | src/bw_std_control/src/standard_system_hardware.cpp:855-933 | one `read` call: serial fault, timeout, observation, decoding, recovery bookkeeping and new hold, in that order, give exactly the modelled next state and whether the call reports an error |
| `StandardSystem.StandardSystemHardware.UpdateRecovery` | src/bw_std_control/src/standard_system_hardware.cpp:894-908 | collects per joint whether its entry command has been written, then updates the recovery |
| `StandardSystem.StandardSystemHardware.Write` | src/bw_std_control/src/standard_system_hardware.cpp:935-1087 | one `write` call: every early exit, the wakeup frames, the power request, the hold frame and the bookkeeping after queueing give exactly the modelled next state and whether the call reports an error |
| `StandardSystem.StandardSystemHardware.QueueCommandFrame` | src/bw_std_control/src/standard_system_hardware.cpp:1038-1085 | the first enabled frame carries the measured hold instead of the command; failures to encode or queue power down |
| `StandardSystem.StandardSystemHardware.FailActiveCommand` | src/bw_std_control/src/standard_system_hardware.cpp:1233-1269 | deactivates, then replaces velocity and head of the hold before queueing the power-off |
| `StandardSystem.StandardSystemHardware.OnActivate` | src/bw_std_control/src/standard_system_hardware.cpp:554-645 | activation with and without software power gives exactly the modelled next state and verdict |
| `StandardSystem.StandardSystemHardware.OnConfigure` | src/bw_std_control/src/standard_system_hardware.cpp:512-542 | the fault flag, the counters, the head hold and the recovery start afresh; nothing is active |
| `StandardSystem.StandardSystemHardware.OnCleanup` | src/bw_std_control/src/standard_system_hardware.cpp:544-552 | inactive, and the recovery reset |
| `StandardSystem.StandardSystemHardware.OnDeactivate` | src/bw_std_control/src/standard_system_hardware.cpp:807-821 | inactive, a power-off asked for, the recovery reset; succeeds iff the power-off was queued and written in time |
| `StandardSystem.StandardSystemHardware.OnShutdown` | src/bw_std_control/src/standard_system_hardware.cpp:823-853 | the same, and `on_error` likewise; succeeds iff the power-off was queued |
| `StandardSystem.StandardSystemHardware.HandleSerialError` | src/bw_std_control/src/standard_system_hardware.cpp:1125-1131 | sets the fault flag in whatever state the hardware is; the next `read` or `write` finds it |
| `StandardSystem.StandardSystemHardware.AwaitReadyArms` | src/bw_std_control/src/standard_system_hardware.cpp:694-740 | the timed loop of phase 1 ends with the frame that passes the gate, or with a fault or at the deadline |
| `StandardSystem.StandardSystemHardware.HoldPrecharge` | src/bw_std_control/src/standard_system_hardware.cpp:757-801 | the timed loop of phase 2 ends on the tick that completes the precharge, or aborts on fault, failure to queue or unusable feedback |
| `StandardSystem.UpdateJointVelocityLimits` | src/bw_std_control/src/standard_system_hardware.cpp:494-510 | lift, grippers, arms and head get their velocity limits; accepted iff all are finite and positive |
| `HardwareSteps.RunReaches` | src/bw_std_control/src/standard_system_hardware.cpp:855-1087 | every run of `read`, `write` and serial errors is a chain of single events, the form in which the invariants are proved |
| `HardwareSteps.SendFacts` | src/bw_std_control/src/standard_system_hardware.cpp:1001-1076 | which flag, stage and log entry a queued frame brings |
| `PowerTrace.SendKeepsInv` | src/bw_std_control/src/standard_system_hardware.cpp:1001-1076 | queueing any frame keeps the correspondence between the power-on stage and what the log shows |
| `PowerTrace.EnableIsEarned` | src/bw_std_control/src/arm_power_on_sequence.cpp:79-138 | from the invariant, in terms of log positions: gate, first precharge, its age, and the completed write before an enable |
| `PowerTrace.EnabledIsNeverFirst` | src/bw_std_control/src/standard_system_hardware.cpp:1001-1076 | an enabled frame is never the first frame of a log |
| `HardwareSafety.ArmsAreEnabledOnlyWhenEarned` | src/bw_std_control/src/standard_system_hardware.cpp:1001-1076 | after every activation and every run: 0x3D only directly after 0x3D or 0x25, 0x25 never directly after 0x3D, and every change from 0x25 to 0x3D had the required usable observations in a row, unbroken since, a precharge after them that is old enough, and the newest precharge written |
| `Motion.NearHasLaws` | src/bw_std_control/src/command_safety.cpp:382-403 | "within velocity times time" is reflexive, adds up over time, and holds of every step-limited command |
| `Motion.RunStartsWithHold` | src/bw_std_control/src/standard_system_hardware.cpp:1038-1049 | every unbroken series of enabled frames begins with a hold frame at rest at the last measured position, and has no other |
| `HardwareSafety.EnabledMotionIsBounded` | src/bw_std_control/src/standard_system_hardware.cpp:935-1087 | after every activation and every run: every enabled frame of `write` belongs to a series opened by the measured hold with zero base velocity, and keeps each joint within velocity limit times the summed periods since that hold |
| `LimitKeeping.LimitedJointInRange` | src/bw_std_control/src/command_safety.cpp:149-197 | a validated and step-limited joint value stays in the widened limits if the previous one was, and moves inward while recovering |
| `LimitKeeping.NextFrameInRangeIff` | src/bw_std_control/src/standard_system_hardware.cpp:964-1085 | one frame of `write` after a frame in range: it leaves the widened limits if and only if it will be a hold and the latest measurement of some joint still recovering is out of range; all of that is known before the frame is built |
| `HardwareSafety.FramesStayInRangeIff` | src/bw_std_control/src/standard_system_hardware.cpp:935-1087 | after every activation and every run: all frames of `write` stay within limits and tolerance if and only if, each time an enabled frame opens a series, the latest measurement of every joint whose recovery has not yet been released is in range; the condition speaks only of events before that frame |
| `HardwareSafety.RecoveryMovesInward` | src/bw_std_control/src/command_safety.cpp:149-197 | every frame of `write` but a hold moves each recovering joint inward from the frame queued before it and never past the opposite hard limit |
| `CommandSafety.MakeStandardStartupLimitTolerance` | src/bw_std_control/src/command_safety.cpp:91-103 | the seven joints of each arm get one tolerance, the grippers the other, the lift none |
| `RangeCounterexample.ConfigurableBounds` | src/bw_std_control/src/standard_system_hardware.cpp:359-510 | whatever is configured: 5 ready frames, 10 ms of precharge, arm tolerances up to 0.002, gripper tolerances up to 0.001, none for the lift |
| `RangeCounterexample.ExampleIsConfigurable` | src/bw_std_control/src/standard_system_hardware.cpp:359-510 | the configuration of the next row is one `on_init` can produce: parsed limits, derived velocities, tolerances within 0.002 rad and 0.001 m and none for the lift, 5 ready frames and 10 ms of precharge |
| `RangeCounterexample.HoldLeavesRange` | src/bw_std_control/src/command_safety.cpp:245-256 | a concrete session with that configuration: an arm joint starts 0.001 below its limit of 0.5 and is read as zero from then on, at every cycle; the first frame that enables the arms sends it to zero |
| `Release.SettledIff` | src/bw_std_control/src/command_safety.cpp:199-277 | from the invariant: a joint has settled iff the log holds entry command, completed write and newer in-limit measurement, in this order |
| `HardwareSafety.RecoveryEndsIffReleased` | src/bw_std_control/src/command_safety.cpp:199-277 | after every activation and every run, faulting ones included: a joint that began outside its limits still recovers in that direction, or has settled and then an enabled frame led it inward and inside, a measurement saw that frame's write completed, and a measurement with a greater feedback sequence lay within the hard limits. While the hardware is active it has settled exactly when those three moments are in the log; a call that faults at an earlier joint may leave it recovering |
| `HardwareSafety.SettledStaysSettled` | src/bw_std_control/src/command_safety.cpp:232-277 | once a joint has stopped recovering, no run of `read`, `write` and serial errors makes it recover again, whether the hardware is still active or not |
| `HardwareSafety.ActivateIsSafe` | src/bw_std_control/src/standard_system_hardware.cpp:554-645 | whatever the environment answers, activation ends in a state with all these invariants |
| `HardwareSafety.FaultIsFinal` | src/bw_std_control/src/standard_system_hardware.cpp:855-1087 | once inactive, no run of `read`, `write` and serial errors makes the hardware active again or queues anything but a power-off |
| `HardwareSafety.DeactivationPowersDown` | src/bw_std_control/src/standard_system_hardware.cpp:855-1087 | every `read` or `write` that deactivates also asks for a power-off, which is then the last frame if the transport takes it |
| `TransportOutput.OnlyPowerOffsAreWritten` | src/bw_std_control/src/command_queue.cpp:92-171 | from a power-off push for the live session on, as long as no normal frame is pushed, every frame written to the line carries the power-off flag: before and after completions, across `close` and `open` |
| `TransportOutput.DeliveryRun` | src/bw_std_control/src/async_serial_transport.cpp:157-190 | in every run, whatever is recorded as completed was written to the line, or is a power-off and an earlier power-off of its own session was; and the frame in flight is among those written |
| `HardwareSafety.CallAsks` | src/bw_std_control/src/standard_system_hardware.cpp:855-1087 | one `read`, `write` or serial error hands the transport at most one normal frame and after it at most one power-off, and a normal one only in a `write` that finds the hardware active |
| `EndToEnd.CallsPushAllowed` | src/bw_std_control/src/standard_system_hardware.cpp:554-1087 | hardware and transport run together: only an activation and an active `write` push normal frames, and no call pushes one after its power-off |
| `EndToEnd.EnableFollowsWrittenPrecharge` | src/bw_std_control/src/standard_system_hardware.cpp:1001-1015 | hardware and transport run together, each taking the other's answers: whenever the arms were enabled after a precharge, that very precharge frame with its 0x25 flag was written to the line, and before the enabled frame if that one was written at all |
| `EndToEnd.NothingEnabledAfterFault` | src/bw_std_control/src/standard_system_hardware.cpp:807-1087 | hardware and transport run together: once a call, faulting or `on_deactivate`, `on_shutdown` or `on_error`, has left the hardware inactive and pushed its power-off for the live session, every frame written from then on carries the power-off flag until the next activation, whatever callbacks, serial errors and power-offs follow; so no enabled frame queued before or after reaches the line |
| `FaultScenario.FaultHappens` | src/bw_std_control/src/standard_system_hardware.cpp:835-882 | a concrete run of both machines that meets every premise of the row above: after the activation of the range example, feedback 200 ms old deactivates the hardware, its power-off is pushed for the live session while an enabled frame is still queued, one more frame is written, and `on_error` pushes a second power-off |
| `Activation.StreamPrechargeKeeps` | src/bw_std_control/src/standard_system_hardware.cpp:757-801 | the precharge loop succeeds only on a tick that completes the pending precharge, and keeps whatever observing and queueing keep |
| `StandardMapping.ValidMotorIndices` | src/bw_std_control/src/standard_mapping.cpp:113-124 | true iff the seven motor indices are a permutation of 0 to 6 |
| `StandardMapping.ValidParameters` | src/bw_std_control/src/standard_mapping.cpp:67-91 | true iff permutations, directions, zeros and all scalar parameters are as required |
| `StandardMapping.EverySlotHasItsJoint` | src/bw_std_control/src/standard_mapping.cpp:113-124 | in a permutation each of the seven slots belongs to exactly one joint |
| `StandardMapping.EncodeArms` | src/bw_std_control/src/standard_mapping.cpp:271-300 | the loop over both arms fills slot by slot and fails iff some raw position is not representable |
| `StandardMapping.EncodeStandardCommand` | src/bw_std_control/src/standard_mapping.cpp:220-334 | succeeds iff command, parameters, head hold and all results are representable and no gripper velocity is a NaN; then the payload carries direction times position plus zero in each motor's slot, the lift in millimetres, the clamped grippers, the negated head, and the velocity and acceleration limits |
| `StandardMapping.EncodeSpeeds` | src/bw_std_control/src/standard_mapping.cpp:262-309 | each motor slot gets the clamped velocity of its joint, or the configured limit where none is given or it is not finite; the grippers' are scaled to their travel |
| `StandardMapping.SpeedsWithinLimits` | src/bw_std_control/src/standard_mapping.cpp:262-309 | every maximum velocity sent lies between zero and its configured limit, unless a gripper's is a NaN, which is not finite |
| `MotorCommands.ArmSpeedsAreSent` | src/bw_std_control/src/standard_mapping.cpp:262-300 | a known arm speed is sent as its size up to the configured limit, an unusable one as the limit, or zero with power off |
| `MotorCommands.GripperSpeedIsSent` | src/bw_std_control/src/standard_mapping.cpp:302-309 | a gripper slot times the travel is the size of the speed up to its limit; a NaN makes the slot non-finite |
| `MotorCommands.VelocitiesCoverTheWay` | src/bw_std_control/src/standard_system_hardware.cpp:1046-1056 | for every frame of `write`: the velocity of each slot times the time since the frame before is the way to the sent position, as far as the configured limit allows |
| `MotorCommands.LimitedJointIsReached` | src/bw_std_control/src/standard_system_hardware.cpp:1046-1056 | for every frame that the step limit let through, with the limits derived from the mapping, the velocity of each arm slot times the time since the frame before is exactly the way |
| `MotorCommands.LimitedGripperIsReached` | src/bw_std_control/src/standard_system_hardware.cpp:1046-1056 | and so is that of each gripper slot times its travel |
| `MotorCommands.PayloadInWireUnits` | src/bw_std_control/src/standard_mapping.cpp:220-327 | the payload in numbers: lift times 1000, motor angles turned and shifted, grippers as shares of the travel, head angles reversed, no base motion with power off |
| `MotorCommands.StateInJointUnits` | src/bw_std_control/src/standard_mapping.cpp:168-218 | the decoded state in numbers: every joint value out of its own slot, lift divided by 1000, grippers times the travel |
| `StandardMapping.EncodingIsUnique` | src/bw_std_control/src/standard_mapping.cpp:271-300 | command and parameters determine the payload: every slot is written |
| `StandardMapping.DecodeStandardState` | src/bw_std_control/src/standard_mapping.cpp:168-218 | succeeds iff the parameters are valid and every decoded value is finite; the state is what the feedback measures |
| `StandardMapping.TryExtractHeadHold` | src/bw_std_control/src/standard_mapping.cpp:135-150 | negates pitch and yaw and keeps the roll; fails iff one of the three head fields is not finite |
| `StandardMapping.EncodeThenDecode` | src/bw_std_control/src/standard_mapping.cpp:168-334 | encoding then decoding returns the commanded lift and arm positions, and the grippers clamped to their travel |
| `StandardMapping.DecodeThenEncode` | src/bw_std_control/src/standard_mapping.cpp:168-334 | encoding a decoded measurement reproduces the lift and every arm motor's raw position, and the grippers clamped to 0 to 1 |
| `ClientSession.ClientSessionManager.CanAcceptValidPacket` | src/bw_teleop/src/client_session_manager.cpp:38-50 | releases an expired owner, then accepts the owner or anyone if there is none; with the lock off, every named client |
| `ClientSession.ClientSessionManager.AcceptValidPacket` | src/bw_teleop/src/client_session_manager.cpp:18-36 | as above, and makes the sender owner and its packet the last seen |
| `VrStream.VrStreamManager.IngestDatagram` | src/bw_teleop/src/vr_stream_manager.cpp:16-71 | which of the five dispositions a datagram gets, the whole new state for each, and whether an accepted one changed the owner |
| `VrStreamRuns.AlienIsIgnored` | src/bw_teleop/src/vr_stream_manager.cpp:16-71 | with the lock, a datagram from a non-owner before the timeout leaves the entire stream manager unchanged |
| `VrStreamRuns.OthersDoNotInterfere` | src/bw_teleop/src/vr_stream_manager.cpp:16-71 | deleting all such datagrams from any run leaves the final state, every tick and every acceptance the same |
| `VrStreamRuns.OnlyTheOwnerIsRemembered` | src/bw_teleop/src/vr_stream_manager.cpp:42-66 | with the lock, the keys of the timestamp map are exactly the current owner, with the timestamp of its last accepted datagram |
| `VrStreamRuns.OwnerChangesOnlyAfterSilence` | src/bw_teleop/src/client_session_manager.cpp:18-63 | with the lock, without a silence of the timeout the accepted datagrams come from one source with strictly increasing timestamps; a change of source means at least the timeout has passed since the old owner's last one |
| `VrStreamRuns.TimestampsIncrease` | src/bw_teleop/src/vr_stream_manager.cpp:50-62 | without the lock the accepted timestamps of each source strictly increase, always |
| `VrStreamInputs.AcceptedIff` | src/bw_teleop/src/vr_stream_manager.cpp:16-71 | over every run: a datagram is accepted iff it carries a frame, has a sender and a finite arrival time, and with the lock nobody was accepted before, the last one has been silent for the timeout, or it is that sender with a later timestamp; without the lock it is later than all accepted ones of its sender |
| `VrStreamInputs.StreamIsItsCalls` | src/bw_teleop/src/vr_stream_manager.cpp:16-71 | the manager is in the state, and has made the ticks, that the accepted frames, the clearing datagrams and the direct calls alone lead to, so that all results about calls hold of the stream |
| `PoseMapper.HandPoseMapper.UpdateSide` | src/bw_teleop/src/pose_mapper.cpp:113-170 | one hand of the pose mapper: released, absolute, engaging, or following, with the new target clamped to the workspace |
| `PoseMapper.HandPoseMapper.SetControlMode` | src/bw_teleop/src/pose_mapper.cpp:95-106 | a change of mode opens both clutches |
| `PoseMapper.HandPoseMapper.ResetSide` | src/bw_teleop/src/pose_mapper.cpp:180-189 | puts the target at the reset pose and opens the clutch |
| `PoseMapper.UpdateStaysInside` | src/bw_teleop/src/pose_mapper.cpp:113-170 | no update moves a target out of the workspace |
| `PoseMapper.EngagingStartsAtMeasured` | src/bw_teleop/src/pose_mapper.cpp:146-158 | an update that engages the clutch in relative mode leaves the target at the measured position |
| `TeleopManager.TeleopManager.UpdateVrFrame` | src/bw_teleop/src/teleop_manager.cpp:31-70 | a frame replaces the hands' inputs; an invalid head clears everything, an unusable hand only itself and its clutch |
| `TeleopManager.TeleopManager.UpdateMeasuredState` | src/bw_teleop/src/teleop_manager.cpp:77-122 | valid readings in range are stored, the first one also becomes the command; invalid ones invalidate |
| `TeleopManager.TeleopManager.Tick` | src/bw_teleop/src/teleop_manager.cpp:170-272 | one tick: freshness, SAFE_HOLD, buttons, targets, auxiliary commands and the measured hold give exactly the modelled next state |
| `TeleopInputs.LatestIsLast` | src/bw_teleop/src/teleop_manager.cpp:31-168 | the latest call about a hand, arm or axis is one with none after it |
| `TeleopInputs.StateIsTold` | src/bw_teleop/src/teleop_manager.cpp:31-168 | over every run: each hand and joystick is that of the latest frame if it was accepted and shows this hand, and as never received otherwise; each arm pose is that of the latest call about this arm if usable; each axis that of the latest reading in range |
| `TeleopTicks.SafeHoldIff` | src/bw_teleop/src/teleop_manager.cpp:200-272 | over every run: a tick is in SAFE_HOLD iff the latest frame was not accepted, is too old or does not show a hand it calls connected, or a grip is pressed before the first running tick, after a holding one or after a clearing call |
| `TeleopOutcomes.TargetsAreValidIff` | src/bw_teleop/src/teleop_manager.cpp:741-764 | over every run: a target is valid iff the tick does not hold, its arm was measured lately, the latest frame shows its hand with the grip pressed, and the mode is absolute, the clutch held, or the measured position inside the workspace |
| `TeleopOutcomes.TargetsFollowThePassedHand` | src/bw_teleop/src/pose_mapper.cpp:113-170 | over every run, in the values passed to the calls: a valid relative target is the arm position measured when the clutch engaged plus the scaled way of the hand since then, coordinate by coordinate within the workspace |
| `TeleopOutcomes.AbsoluteTargets` | src/bw_teleop/src/pose_mapper.cpp:113-170 | over every run: a valid absolute target is the reset position plus the scaled position of the hand in the latest frame, within the workspace |
| `TeleopCommands.CommandsFollowTheSticks` | src/bw_teleop/src/teleop_manager.cpp:741-782 | over every run: each trigger opens its own gripper over its range, the right stick moves the lift from its last command by speed and time since the last tick, left stick and right stick drive and turn the base with signs, deadzone and gear; commands are the latest readings when they must not jump; the base rests in SAFE_HOLD |
| `TeleopCommands.FirstReadingIsCommanded` | src/bw_teleop/src/teleop_manager.cpp:77-122 | a reading becomes the command exactly when it is the first usable one of its axis |
| `TeleopCommands.IdleCommandsStay` | src/bw_teleop/src/teleop_manager.cpp:202-250 | without fresh feedback a running tick leaves gripper and lift commands as they are, and a holding one puts those of measured axes at the measured values |
| `TeleopButtons.ButtonsDecide` | src/bw_teleop/src/teleop_manager.cpp:547-739 | over every run: the mode changes exactly at the tick at which both combinations have been pressed unbroken for the long-press time, once per press; single combinations, the menu button and a pending reset put a target at its reset position and open its clutch; a target not valid otherwise stays; a new press of the right stick shifts the gear |
| `TeleopRuns.SafeHoldIsLeftReleased` | src/bw_teleop/src/teleop_manager.cpp:202-256 | in every run, a tick leaves SAFE_HOLD only with all inputs fresh and both grips released |
| `Reclutch.TickKeepsClutch` | src/bw_teleop/src/teleop_manager.cpp:741-759 | after every tick a held clutch has the baselines of the tick at which it engaged, and the target has been valid ever since |
| `TeleopRuns.TargetsFollowTheHand` | src/bw_teleop/src/pose_mapper.cpp:146-169 | in every run, a valid target in relative mode equals the clamped position of its engagement plus scale times the hand displacement since, whatever the path; at the engagement, and so at the first valid tick after an invalid one, it is the measured position |
| `TeleopRuns.TargetsStayInWorkspace` | src/bw_teleop/src/pose_mapper.cpp:239-250 | in every run and mode, the published targets lie in the workspace |
| `TeleopRuns.AuxiliaryIsBumpless` | src/bw_teleop/src/teleop_manager.cpp:188-256 | in every run, gripper and lift commands stay in their ranges, and equal the measured values at every tick that flags them valid and is in SAFE_HOLD or follows a tick that did not |

## Left out

- Threads, Asio, timers, condition variables and memory orderings weaker than sequential consistency: only the steps they
  trigger are modelled. The mailbox methods are single steps of `SerialTransport`, with one producer and one frame in flight;
  `complete_power_off_from_consumer` is not split against `try_push_power_off`, whose latch claim holds per whole method.
- `wait_for_power_off`, and the retries of the compare-and-swap that hands out sequences: that is one step here.
- `AsyncSerialTransport::Impl` and `SerialSession` as classes: they are modelled on values, as the steps of a state machine,
  because their fields are changed by three threads; update in place and aliasing are not captured there.
- The feedback hand-off: it is the sequence of published payloads. `realtime_tools::RealtimeBuffer` is not part of this model.
- Byte layout of the payload structs, and the conversion of bytes to floats: a payload is its bytes in `FrameCodec` and its
  fields in `StandardMapping`.
- Null arguments of the codec and the parser: the model has byte sequences and arrays.
- CRC detection of longer bursts and of odd numbers of flipped bits.
- Floating-point rounding, overflow of intermediate results and narrowing to float; only finiteness and range tests remain.
- The fields of the command payload that are always zero: the waist, the head pitch velocity and the torques.
- Diagnostics values other than kind and index, and all logging.
- StandardSystem.StandardSystemHardware.Read: does not state the fault reason, which is only logged.
- StandardSystem.StandardSystemHardware.Write: does not state the fault reason, which is only logged.
- Parameter parsing in `on_init`, and when the lifecycle allows which callback. A session is one activation with the calls of
  `read` and `write` and the serial errors after it; its log starts empty. The callbacks that end one are in `EndToEnd`.
- The chassis wakeup frames appear as their effect on the counters; their flags are not part of the control-flag trace.
- `check_command_limits`, `command_within_limits`, `clamp_command_to_limits` and `command_is_finite`: not used by `write`.
- Orientations in the pose mapper, beyond the test whether one is valid: normalisation needs a square root, which rules out the
  reals used here, so the results about targets are about positions. Squared norms that overflow are not modelled.
- Head angles, Euler conversion and head commands; of a head pose only whether it converts to finite angles is kept.
  `begin_reset`, `advance_reset`, `set_target` and pose interpolation, which `tick` does not reach.
- VrStream.VrStreamManager.IngestDatagram: does not state the message text of the result.
- PoseMapper.HandPoseMapper.UpdateSide: states the position of the target, not its orientation.
- PoseMapper.HandPoseMapper.ResetSide: states the position of the target, not its orientation.
- TeleopManager.TeleopManager.UpdateVrFrame: keeps of the head pose only whether it converts to finite angles.
- A clock reading of minus infinity for the previous tick: it is treated like every other non-finite reading.
- VR packet parsing and input mapping: their result, ignored, unusable or a frame with a finite timestamp, comes with the datagram.
- Base and head controllers, kinematics, ROS nodes, launch files and build files.
- TeleopManager.TeleopManager.Tick: does not state head commands, orientations or the button events reported to the caller. The
  fields for VR input and flags are grouped in records that the methods replace, where the code has single fields.
- EndToEnd.NothingEnabledAfterFault: is about a power-off that was pushed; one that cannot be encoded or finds no session is not.
