/** What the callbacks of `standard_system_hardware.cpp` do to the fields of the hardware object, as
    functions of the fields and of what the environment answers (clock, feedback, controllers,
    transport). `log` and `asked` record the past; the code keeps none of it. */
module HardwareModel {
  import opened Crc16
  import opened CommandMailbox
  import opened Doubles
  import opened CommandSafety
  import opened ArmPowerOn

  const MAX_ACCESS_FAILURES: nat := 10
  const WAKEUP_FRAMES: nat := 200

  /** `power` is `power_on_on_activate && arm_mapping_calibrated`. */
  datatype Config = Config(
    limits: Limits, tolerance: seq<Double>, commandPeriod: int, feedbackTimeout: int,
    power: bool, required: nat, precharge: int)
  {
    predicate Shaped() {
      limits.Shaped() && |tolerance| == JOINTS && required >= 1 && precharge >= 0
    }
  }

  /** A finite range, not empty. */
  predicate RangeOk(lower: Double, upper: Double) {
    lower.Finite? && upper.Finite? && lower.v <= upper.v
  }

  predicate SpeedOk(velocity: Double) {
    velocity.Finite? && velocity.v > 0.0
  }

  /** What `on_init` can produce: limits it has parsed, velocities it has derived, tolerances within
      their caps, and the default power-on sequence. */
  predicate Configurable(c: Config) {
    && c.Shaped()
    && (forall j | 0 <= j < JOINTS :: RangeOk(c.limits.lower[j], c.limits.upper[j]))
    && (forall j | 0 <= j < HEAD ::
          && RangeOk(c.limits.headLower[j], c.limits.headUpper[j])
          && c.limits.headLower[j].v <= 0.0 <= c.limits.headUpper[j].v)
    && (forall j | 0 <= j < JOINTS :: SpeedOk(c.limits.velocity[j]))
    && (forall j | FIRST_ARM_JOINT <= j < LEFT_GRIPPER_JOINT ::
          c.limits.velocity[j] == c.limits.velocity[FIRST_ARM_JOINT])
    && c.limits.velocity[LEFT_GRIPPER_JOINT] == c.limits.velocity[RIGHT_GRIPPER_JOINT]
    && (forall j | 0 <= j < HEAD ::
          SpeedOk(c.limits.headVelocity[j]) && c.limits.headVelocity[j] == c.limits.headVelocity[0])
    && c.tolerance[FIRST_ARM_JOINT].Finite? && c.tolerance[LEFT_GRIPPER_JOINT].Finite?
    && 0.0 <= c.tolerance[FIRST_ARM_JOINT].v <= MAX_ARM_TOLERANCE
    && 0.0 <= c.tolerance[LEFT_GRIPPER_JOINT].v <= MAX_GRIPPER_TOLERANCE
    && c.tolerance == StandardTolerance(c.tolerance[FIRST_ARM_JOINT].v, c.tolerance[LEFT_GRIPPER_JOINT].v)
    && c.required == DEFAULT_READY_FRAMES && c.precharge == DEFAULT_PRECHARGE
    && c.commandPeriod >= 0 && c.feedbackTimeout >= MILLISECOND && c.feedbackTimeout % MILLISECOND == 0
  }

  /** A decoded feedback frame: `usable` when every raw arm position is finite, `position` when
      `decode_standard_state` accepts it, `head` (pitch, yaw) when the head fields are finite. */
  datatype Feedback = Feedback(
    sequence: nat, receivedAt: int, usable: bool, position: Option<seq<Double>>, head: Option<(Double, Double)>)
  {
    predicate Shaped() {
      position.Some? ==> |position.value| == JOINTS && AllFinite(position.value)
    }
  }

  datatype Event =
    | Observed(usable: bool)
    | SequenceReset
    | Elapsed(seconds: real)
    | Held(position: seq<Double>)
    | Measured(feedback: nat, position: seq<Double>, written: set<nat>)
    | Queued(flag: Byte, at: int, sequence: nat, frame: Command, previous: Command,
             byWrite: bool, hold: bool, directions: seq<Direction>, written: set<nat>)
    | PowerOffQueued

  /** The two ways to hand a frame to the transport. */
  datatype Asking = AsyncWrite | AsyncWritePowerOff

  datatype Hardware = Hardware(
    active: bool, serialFault: bool, arm: ArmSequence, enableSent: bool, recovery: Recovery,
    safeHold: Command, lastSent: Command, headHold: seq<Double>,
    elapsed: real, lastStamp: int, wakeups: nat, stateFailures: nat, commandFailures: nat,
    log: seq<Event>, asked: seq<Asking>)
  {
    predicate Shaped() {
      safeHold.Shaped() && lastSent.Shaped() && |headHold| == HEAD
    }
  }

  datatype ReadInput = ReadInput(
    feedback: Option<Feedback>, now: int, stored: bool, written: set<nat>, powerOffQueued: bool)
  {
    predicate Shaped() { feedback.Some? ==> feedback.value.Shaped() }
  }

  datatype WriteInput = WriteInput(
    open: bool, period: Double, command: Option<Command>, now: int, wakeupQueued: bool,
    safetyPower: Option<Double>, encoded: bool, sequence: nat, written: set<nat>, powerOffQueued: bool)
  {
    predicate Shaped() { command.Some? ==> command.value.Shaped() }
  }

  function Directions(r: Recovery): seq<Direction> {
    seq(JOINTS, j requires 0 <= j < JOINTS => r[j].direction)
  }

  function WriteCompleted(sequence: nat, written: set<nat>): bool {
    sequence != 0 && sequence in written
  }

  function EntriesWritten(r: Recovery, written: set<nat>): seq<bool> {
    seq(JOINTS, j requires 0 <= j < JOINTS => WriteCompleted(r[j].entry, written))
  }

  function HoldCommand(position: seq<Double>, headHold: seq<Double>): Command {
    Command(position, Zeros(BASE), headHold)
  }

  /** A frame that has been encoded is handed to `async_write`. */
  function Ask(s: Hardware, encoded: bool): (t: Hardware)
    ensures s.Shaped() ==> t.Shaped()
  {
    if encoded then s.(asked := s.asked + [AsyncWrite]) else s
  }

  /** `queue_power_off` after `active_` has been cleared. */
  function PowerDown(s: Hardware, queued: bool): (t: Hardware)
    ensures s.Shaped() ==> t.Shaped() && !t.active
  {
    s.(active := false,
       safeHold := s.safeHold.(baseVelocity := Zeros(BASE), head := s.headHold),
       log := if queued then s.log + [PowerOffQueued] else s.log,
       asked := s.asked + [AsyncWritePowerOff])
  }

  // ----- read -----

  function Read(c: Config, s: Hardware, i: ReadInput): (t: Hardware)
    requires c.Shaped() && s.Shaped() && i.Shaped()
    ensures t.Shaped()
  {
    if s.serialFault then if s.active then PowerDown(s, i.powerOffQueued) else s
    else if i.feedback.None? then s
    else
      var f := i.feedback.value;
      if s.active && i.now - f.receivedAt > c.feedbackTimeout then PowerDown(s, i.powerOffQueued)
      else
        ReadFrame(c, if s.active then SeeFrame(c, s, f.usable) else s, f, i)
  }

  function SeeFrame(c: Config, s: Hardware, usable: bool): (t: Hardware)
    ensures s.Shaped() ==> t.Shaped()
  {
    s.(arm := Observe(s.arm, c.required, usable), log := s.log + [Observed(usable)])
  }

  /** `read` once the power sequence has seen the frame. */
  function ReadFrame(c: Config, s: Hardware, f: Feedback, i: ReadInput): (t: Hardware)
    requires c.Shaped() && s.Shaped() && f.Shaped()
    ensures t.Shaped()
  {
    if f.position.None? || f.head.None? then PowerDown(s.(serialFault := true), i.powerOffQueued)
    else
      var h := s.(headHold := [f.head.value.0, f.head.value.1, s.headHold[2]]);
      if !i.stored then
        var n := h.(stateFailures := h.stateFailures + 1);
        if n.stateFailures <= MAX_ACCESS_FAILURES then n else PowerDown(n, i.powerOffQueued)
      else TakeMeasurement(c, h.(stateFailures := 0), f.position.value, f.sequence, i)
  }

  /** The second half of `read`: recovery bookkeeping, then the new hold. */
  function TakeMeasurement(c: Config, s: Hardware, position: seq<Double>, feedback: nat, i: ReadInput): (t: Hardware)
    requires c.Shaped() && s.Shaped() && |position| == JOINTS
    ensures t.Shaped()
  {
    var guarded := s.active && c.power;
    var written := EntriesWritten(s.recovery, i.written);
    var m := if !guarded then s else
      s.(recovery := Measure(s.recovery, position, c.limits, written, feedback),
         log := s.log + [Measured(feedback, position, i.written)]);
    if guarded && !MeasureOk(s.recovery, position, c.limits, written, feedback)
    then PowerDown(m, i.powerOffQueued)
    else
      var h := m.(safeHold := HoldCommand(position, m.headHold), log := m.log + [Held(position)]);
      if guarded && !AuxiliaryOk(h.safeHold, c.limits) then PowerDown(h, i.powerOffQueued) else h
  }

  /** `read` returns OK. */
  predicate ReadOk(c: Config, s: Hardware, i: ReadInput)
    requires c.Shaped() && s.Shaped() && i.Shaped()
  {
    var t := Read(c, s, i);
    && !s.serialFault
    && if i.feedback.None? then !s.active
       else if s.active then t.active
       else !t.serialFault && t.stateFailures <= MAX_ACCESS_FAILURES
  }

  // ----- write -----

  /** `write` returns OK. */
  predicate WriteOk(c: Config, s: Hardware, i: WriteInput)
    requires c.Shaped() && s.Shaped() && i.Shaped()
  {
    s.active && c.power ==> Write(c, s, i).active
  }

  function Write(c: Config, s: Hardware, i: WriteInput): (t: Hardware)
    requires c.Shaped() && s.Shaped() && i.Shaped()
    ensures t.Shaped()
  {
    if !s.active || !c.power then s
    else if s.serialFault || !i.open || i.period.NonFinite? || i.period.v <= 0.0
    then PowerDown(s, i.powerOffQueued)
    else Pass(c, AddPeriod(s, i), i)
  }

  /** The period counts, and so does a failure to read the command handles. */
  function AddPeriod(s: Hardware, i: WriteInput): (t: Hardware)
    requires i.period.Finite?
    ensures s.Shaped() ==> t.Shaped()
  {
    s.(elapsed := s.elapsed + i.period.v, log := s.log + [Elapsed(i.period.v)],
       commandFailures := if i.command.None? then s.commandFailures + 1 else 0)
  }

  /** `write` once the period has been added and the command handles have been read. */
  function Pass(c: Config, s: Hardware, i: WriteInput): (t: Hardware)
    requires c.Shaped() && s.Shaped() && i.Shaped()
    ensures t.Shaped()
  {
    if i.command.None? then
      if s.commandFailures <= MAX_ACCESS_FAILURES then s else PowerDown(s, i.powerOffQueued)
    else if !ValidateOk(s.recovery, i.command.value, s.lastSent, c.limits) then PowerDown(s, i.powerOffQueued)
    else if i.now - s.lastStamp < c.commandPeriod then s
    else if s.wakeups > 0 then
      var w := Ask(s.(wakeups := s.wakeups - 1), true);
      if i.wakeupQueued then w.(lastStamp := i.now)
      else PowerDown(w.(serialFault := true), i.powerOffQueued)
    else WriteFrame(c, s, i)
  }

  /** The power request settles which stage this frame is sent in. */
  function SettlePower(c: Config, s: Hardware, requested: bool, i: WriteInput): (t: Hardware)
    ensures s.Shaped() ==> t.Shaped()
  {
    if !requested then
      s.(arm := RESET_SEQUENCE, enableSent := false, log := s.log + [SequenceReset])
    else if PrechargeCompleted(s.arm, c.precharge, i.now, WriteCompleted(s.arm.pending, i.written)) then
      s.(arm := MarkEnabled(s.arm), enableSent := false)
    else s
  }

  function WriteFrame(c: Config, s: Hardware, i: WriteInput): (t: Hardware)
    requires c.Shaped() && s.Shaped() && i.command.Some? && i.command.value.Shaped()
    ensures t.Shaped()
  {
    if !StepLimitOk(i.command.value, s.lastSent, c.limits, Finite(s.elapsed)) ||
      i.safetyPower.None? || i.safetyPower.value.NonFinite?
    then PowerDown(s, i.powerOffQueued)
    else
      var limited := LimitedCommand(i.command.value, s.lastSent, c.limits, s.elapsed);
      var requested := i.safetyPower.value.v >= 0.5;
      var settled := SettlePower(c, s, requested, i);
      QueueFrame(c, settled, DecideFrame(requested, settled.arm.stage), limited, i)
  }

  /** The first enabled frame after an enable holds the measured position instead of the command. */
  function QueueFrame(c: Config, s: Hardware, kind: FrameKind, limited: Command, i: WriteInput): (t: Hardware)
    requires c.Shaped() && s.Shaped() && limited.Shaped()
    ensures t.Shaped()
  {
    var hold := kind == EnabledFrame && !s.enableSent;
    var frame := if hold then HoldCommand(s.safeHold.position, s.safeHold.head) else limited;
    var h := Ask(s.(enableSent := s.enableSent || hold), i.encoded);
    if !i.encoded then PowerDown(h, i.powerOffQueued)
    else if i.sequence == 0 then PowerDown(h.(serialFault := true), i.powerOffQueued)
    else Recorded(c, h, kind, frame, hold, i)
  }

  /** What `write` remembers of a frame the transport has taken. */
  function Recorded(c: Config, s: Hardware, kind: FrameKind, frame: Command, hold: bool, i: WriteInput): (t: Hardware)
    requires c.Shaped() && s.Shaped() && frame.Shaped()
    ensures t.Shaped()
  {
    s.(arm := if kind == PrechargeFrame then NotePrecharge(s.arm, i.sequence, i.now) else s.arm,
       recovery := if kind == EnabledFrame
                   then NoteQueued(s.recovery, frame, s.lastSent, c.limits, i.sequence) else s.recovery,
       headHold := frame.head, lastStamp := i.now, lastSent := frame, elapsed := 0.0,
       log := s.log + [Queued(FlagOf(kind), i.now, i.sequence, frame, s.lastSent, true, hold,
                              Directions(s.recovery), i.written)])
  }

  // ----- lifecycle -----

  /** `on_configure`. */
  function Configure(s: Hardware): (t: Hardware)
    ensures s.Shaped() ==> t.Shaped()
  {
    s.(active := false, serialFault := false, recovery := IdleRecovery(), headHold := Zeros(HEAD),
       elapsed := 0.0, stateFailures := 0, commandFailures := 0)
  }

  /** `on_deactivate`, `on_shutdown` and `on_error`. */
  function Halt(s: Hardware, queued: bool): (t: Hardware)
    ensures s.Shaped() ==> t.Shaped()
  {
    PowerDown(s, queued).(recovery := IdleRecovery())
  }

  /** `on_cleanup`. */
  function CleanUp(s: Hardware): (t: Hardware)
    ensures s.Shaped() ==> t.Shaped()
  {
    s.(active := false, recovery := IdleRecovery())
  }

  // ----- runs -----

  /** The I/O thread sets the fault flag. `read` and `write` look at it once, when they start, so it
      makes no difference when during a call that happens. */
  function SerialError(s: Hardware): (t: Hardware)
    ensures s.Shaped() ==> t.Shaped()
  {
    s.(serialFault := true)
  }

  datatype Input = ReadIn(read: ReadInput) | WriteIn(write: WriteInput) | ErrorIn {
    predicate Shaped() {
      match this
      case ReadIn(read) => read.Shaped()
      case WriteIn(write) => write.Shaped()
      case ErrorIn => true
    }
  }

  function Step(c: Config, s: Hardware, i: Input): (t: Hardware)
    requires c.Shaped() && s.Shaped() && i.Shaped()
    ensures t.Shaped()
  {
    match i
    case ReadIn(read) => Read(c, s, read)
    case WriteIn(write) => Write(c, s, write)
    case ErrorIn => SerialError(s)
  }

  ghost predicate AllShaped(inputs: seq<Input>) {
    forall k | 0 <= k < |inputs| :: inputs[k].Shaped()
  }

  ghost function After(c: Config, s: Hardware, inputs: seq<Input>): (t: Hardware)
    requires c.Shaped() && s.Shaped() && AllShaped(inputs)
    ensures t.Shaped()
  {
    if inputs == [] then s
    else Step(c, After(c, s, inputs[..|inputs| - 1]), inputs[|inputs| - 1])
  }
}
