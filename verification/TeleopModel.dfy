/** `teleop_manager.cpp`: what every call does to the fields, as functions of them. Times may be
    NaN or infinite, as in the code. */
module TeleopModel {
  import opened Doubles
  import opened PoseMapper

  datatype Joy = Joy(
    x: Double, y: Double, trigger: Double, grip: bool, xa: bool, yb: bool, menu: bool, joystick: bool)

  const DEFAULT_JOY := Joy(Finite(0.0), Finite(0.0), Finite(0.0), false, false, false, false, false)

  predicate Between(value: Double, low: real, high: real) {
    value.Finite? && low <= value.v <= high
  }

  predicate ValidJoy(joy: Joy) {
    Between(joy.x, -1.0, 1.0) && Between(joy.y, -1.0, 1.0) && Between(joy.trigger, 0.0, 1.0)
  }

  /** `headOk`: the head pose is valid and converts to finite angles. */
  datatype Frame = Frame(
    timestamp: Double, headOk: bool, connected: seq<bool>, poses: seq<Pose>, joys: seq<Joy>)
  {
    predicate Shaped() { |connected| == 2 == |poses| == |joys| }
  }

  datatype TimedPose = TimedPose(value: Pose, at: Double, received: bool)
  datatype TimedJoy = TimedJoy(value: Joy, at: Double, received: bool)

  const NO_POSE := TimedPose(DEFAULT_POSE, Finite(0.0), false)
  const NO_JOY := TimedJoy(DEFAULT_JOY, Finite(0.0), false)

  /** The three measured values: left gripper, right gripper, lift. */
  const AUXILIARIES: nat := 3
  const LIFT_AXIS: nat := 2
  datatype Measured = Measured(value: real, at: Double, valid: bool)

  /** One reading of `MeasuredState`; `present` is its valid flag. */
  datatype Reading = Reading(value: Double, present: bool)

  datatype Press = Press(active: bool, startedAt: Double, fired: bool)
  const IDLE_PRESS := Press(false, Finite(0.0), false)

  datatype Range = Range(low: real, high: real) {
    predicate Valid() { low <= high }
    predicate Contains(v: real) { low <= v <= high }
  }

  /** `ranges` are those of the two grippers and the lift. */
  datatype Config = Config(
    mapper: MapperConfig, watchdog: real, feedbackTimeout: real, armTimeout: real, longPress: real,
    autoReset: bool, deadzone: real, ranges: seq<Range>, liftStart: real, liftSpeed: real,
    baseMax: seq<real>, gearScales: seq<real>, startGear: nat)
  {
    /** `normalize_config` accepts it. */
    predicate Valid() {
      && mapper.Valid() && watchdog > 0.0 && feedbackTimeout > 0.0 && armTimeout > 0.0 && longPress > 0.0
      && 0.0 <= deadzone < 1.0 && |ranges| == AUXILIARIES && ranges[0] == ranges[1]
      && (forall k | 0 <= k < AUXILIARIES :: ranges[k].Valid())
      && ranges[LIFT_AXIS].Contains(liftStart) && liftSpeed >= 0.0
      && |baseMax| == 3 && (forall k | 0 <= k < 3 :: baseMax[k] >= 0.0)
      && |gearScales| == 3 && (forall k | 0 <= k < 3 :: 0.0 <= gearScales[k] <= 1.0) && startGear < 3
    }
  }

  datatype Output = Output(
    target: seq<Vector>, targetValid: seq<bool>, auxiliary: seq<real>, auxiliaryValid: bool,
    base: seq<real>, safeHold: bool)
  {
    predicate Shaped() { |target| == 2 == |targetValid| && |auxiliary| == AUXILIARIES && |base| == 3 }
  }

  const AT_REST: seq<real> := [0.0, 0.0, 0.0]

  /** What the VR side last sent. */
  datatype Input = Input(
    hands: seq<TimedPose>, joys: seq<TimedJoy>, connected: seq<bool>, headReceived: bool, headAt: Double)
  {
    predicate Shaped() { |hands| == 2 == |joys| == |connected| }
  }

  const NO_INPUT := Input([NO_POSE, NO_POSE], [NO_JOY, NO_JOY], [false, false], false, Finite(0.0))

  /** The long presses, the joystick buttons of the previous tick, and the speed gear. */
  datatype Buttons = Buttons(mode: Press, left: Press, right: Press, both: Press, sticks: seq<bool>, gear: nat) {
    predicate Shaped() { |sticks| == 2 && gear < 3 }
  }

  datatype Flags = Flags(
    recovery: bool, resetPending: bool, freshBefore: bool, holdPending: bool, ticked: bool, lastTick: Double)

  datatype Teleop = Teleop(
    mapper: Mapper, vr: Input, arms: seq<TimedPose>, axes: seq<Measured>, buttons: Buttons, flags: Flags,
    output: Output)
  {
    predicate Shaped() {
      && mapper.Shaped() && vr.Shaped() && |arms| == 2 && |axes| == AUXILIARIES && buttons.Shaped()
      && output.Shaped()
    }
  }

  const NOT_MEASURED := Measured(0.0, Finite(0.0), false)

  function Initial(c: Config): (t: Teleop)
    requires c.Valid()
    ensures t.Shaped()
  {
    var mapper := InitialMapper(c.mapper);
    Teleop(
      mapper, NO_INPUT, [NO_POSE, NO_POSE], [NOT_MEASURED, NOT_MEASURED, NOT_MEASURED],
      Buttons(IDLE_PRESS, IDLE_PRESS, IDLE_PRESS, IDLE_PRESS, [false, false], c.startGear),
      Flags(true, false, false, false, false, Finite(0.0)),
      Output([mapper.hands[0].target, mapper.hands[1].target], [false, false],
             [c.ranges[0].low, c.ranges[1].low, c.liftStart], false, AT_REST, true))
  }

  // ----- VR frames -----

  function ReleaseBoth(m: Mapper): (n: Mapper)
    requires m.Shaped()
    ensures n.Shaped()
  {
    Release(Release(m, 0), 1)
  }

  /** `clear_all_vr_input`. */
  function ClearInput(t: Teleop): (u: Teleop)
    requires t.Shaped()
    ensures u.Shaped()
  {
    t.(vr := NO_INPUT, mapper := ReleaseBoth(t.mapper), flags := t.flags.(recovery := true),
       buttons := t.buttons.(sticks := [false, false]))
  }

  predicate HandUsable(f: Frame, side: Side)
    requires f.Shaped()
  {
    f.connected[side] && ValidPose(f.poses[side]) && ValidJoy(f.joys[side])
  }

  function TakeHand(v: Input, f: Frame, side: Side, at: Double): (w: Input)
    requires v.Shaped() && f.Shaped()
    ensures w.Shaped()
  {
    var ok := HandUsable(f, side);
    v.(connected := v.connected[side := f.connected[side]],
       hands := v.hands[side := if ok then TimedPose(f.poses[side], at, true) else NO_POSE],
       joys := v.joys[side := if ok then TimedJoy(f.joys[side], at, true) else NO_JOY])
  }

  /** One hand of `update_vr_frame`: an unusable hand also loses its clutch. */
  function UpdateHandInput(t: Teleop, f: Frame, side: Side, at: Double): (u: Teleop)
    requires t.Shaped() && f.Shaped()
    ensures u.Shaped()
  {
    var w := TakeHand(t.vr, f, side, at);
    if HandUsable(f, side) then t.(vr := w)
    else t.(vr := w, mapper := Release(t.mapper, side),
            buttons := t.buttons.(sticks := t.buttons.sticks[side := false]))
  }

  function UpdateVrFrame(t: Teleop, f: Frame, at: Double): (u: Teleop)
    requires t.Shaped() && f.Shaped()
    ensures u.Shaped()
  {
    if at.NonFinite? || f.timestamp.NonFinite? || !f.headOk then ClearInput(t)
    else
      var seen := t.(vr := t.vr.(headReceived := true, headAt := at));
      UpdateHandInput(UpdateHandInput(seen, f, 0, at), f, 1, at)
  }

  // ----- measurements -----

  function InvalidateAxis(axes: seq<Measured>, k: nat): (r: seq<Measured>)
    requires |axes| == AUXILIARIES && k < AUXILIARIES
    ensures |r| == AUXILIARIES
  {
    axes[k := axes[k].(valid := false, at := Finite(0.0))]
  }

  /** The measured axes and the commands; the first valid value also becomes the command. */
  function UpdateAxis(c: Config, axes: seq<Measured>, commands: seq<real>, k: nat, r: Reading, at: Double):
    (u: (seq<Measured>, seq<real>))
    requires c.Valid() && |axes| == AUXILIARIES == |commands| && k < AUXILIARIES
    ensures |u.0| == AUXILIARIES == |u.1|
  {
    if !r.present then (axes, commands)
    else if r.value.Finite? && c.ranges[k].Contains(r.value.v) then
      (axes[k := Measured(r.value.v, at, true)], if axes[k].valid then commands else commands[k := r.value.v])
    else (InvalidateAxis(axes, k), commands)
  }

  function InvalidateMeasured(axes: seq<Measured>): (r: seq<Measured>)
    requires |axes| == AUXILIARIES
    ensures |r| == AUXILIARIES
  {
    InvalidateAxis(InvalidateAxis(InvalidateAxis(axes, 0), 1), 2)
  }

  function UpdateAxes(c: Config, axes: seq<Measured>, commands: seq<real>, r: seq<Reading>, at: Double):
    (u: (seq<Measured>, seq<real>))
    requires c.Valid() && |axes| == AUXILIARIES == |commands| == |r|
    ensures |u.0| == AUXILIARIES == |u.1|
  {
    if at.NonFinite? then (InvalidateMeasured(axes), commands)
    else
      var a := UpdateAxis(c, axes, commands, 0, r[0], at);
      var b := UpdateAxis(c, a.0, a.1, 1, r[1], at);
      UpdateAxis(c, b.0, b.1, 2, r[2], at)
  }

  function UpdateMeasured(c: Config, t: Teleop, r: seq<Reading>, at: Double): (u: Teleop)
    requires c.Valid() && t.Shaped() && |r| == AUXILIARIES
    ensures u.Shaped()
  {
    var a := UpdateAxes(c, t.axes, t.output.auxiliary, r, at);
    t.(axes := a.0, output := t.output.(auxiliary := a.1))
  }

  function InvalidatePose(arms: seq<TimedPose>, side: Side): (r: seq<TimedPose>)
    requires |arms| == 2
    ensures |r| == 2
  {
    arms[side := arms[side].(received := false, at := Finite(0.0))]
  }

  function UpdatePose(arms: seq<TimedPose>, side: Side, pose: Pose, at: Double): (r: seq<TimedPose>)
    requires |arms| == 2
    ensures |r| == 2
  {
    if !ValidPose(pose) || at.NonFinite? then InvalidatePose(arms, side)
    else arms[side := TimedPose(pose, at, true)]
  }

  // ----- freshness -----

  predicate IsFresh(now: Double, at: Double, timeout: real, received: bool) {
    received && now.Finite? && at.Finite? && 0.0 <= now.v - at.v <= timeout
  }

  /** A hand that is not connected does not count. */
  predicate HandFresh(c: Config, v: Input, now: Double, side: Side)
    requires v.Shaped()
  {
    v.connected[side] ==>
      && IsFresh(now, v.hands[side].at, c.watchdog, v.hands[side].received)
      && IsFresh(now, v.joys[side].at, c.watchdog, v.joys[side].received)
  }

  predicate AllInputsFresh(c: Config, v: Input, now: Double)
    requires v.Shaped()
  {
    && HandFresh(c, v, now, 0) && HandFresh(c, v, now, 1)
    && IsFresh(now, v.headAt, c.watchdog, v.headReceived)
  }

  predicate ArmFresh(c: Config, arms: seq<TimedPose>, now: Double, side: Side)
    requires |arms| == 2
  {
    IsFresh(now, arms[side].at, c.armTimeout, arms[side].received)
  }

  predicate AxisFresh(c: Config, axis: Measured, now: Double) {
    IsFresh(now, axis.at, c.feedbackTimeout, axis.valid)
  }

  predicate AuxiliaryFresh(c: Config, axes: seq<Measured>, now: Double)
    requires |axes| == AUXILIARIES
  {
    AxisFresh(c, axes[0], now) && AxisFresh(c, axes[1], now) && AxisFresh(c, axes[2], now)
  }

  predicate AnyGrip(v: Input)
    requires v.Shaped()
  {
    v.joys[0].value.grip || v.joys[1].value.grip
  }

  // ----- holding -----

  function HoldAxis(axis: Measured, range: Range, command: real): real {
    if axis.valid then Clamp(axis.value, range.low, range.high) else command
  }

  /** `apply_measured_hold`. */
  function HoldMeasured(c: Config, axes: seq<Measured>, commands: seq<real>): (r: seq<real>)
    requires c.Valid() && |axes| == AUXILIARIES == |commands|
    ensures |r| == AUXILIARIES
  {
    [HoldAxis(axes[0], c.ranges[0], commands[0]), HoldAxis(axes[1], c.ranges[1], commands[1]),
     HoldAxis(axes[2], c.ranges[2], commands[2])]
  }

  function ForgetPresses(b: Buttons, v: Input): (r: Buttons)
    requires b.Shaped() && v.Shaped()
    ensures r.Shaped()
  {
    Buttons(IDLE_PRESS, IDLE_PRESS, IDLE_PRESS, IDLE_PRESS,
            [v.joys[0].value.joystick, v.joys[1].value.joystick], b.gear)
  }

  function EnterSafeHold(c: Config, t: Teleop, live: bool): (u: Teleop)
    requires c.Valid() && t.Shaped()
    ensures u.Shaped()
  {
    t.(flags := t.flags.(recovery := t.flags.recovery || !live,
                         resetPending := if live then t.flags.resetPending else c.autoReset),
       output := t.output.(safeHold := true, base := AT_REST,
                           auxiliary := HoldMeasured(c, t.axes, t.output.auxiliary)),
       mapper := ReleaseBoth(t.mapper), buttons := ForgetPresses(t.buttons, t.vr))
  }

  function ResetBoth(c: Config, m: Mapper): (n: Mapper)
    requires c.Valid() && m.Shaped()
    ensures n.Shaped()
  {
    Reset(c.mapper, Reset(c.mapper, m, 0), 1)
  }

  function LeaveSafeHold(c: Config, t: Teleop): (u: Teleop)
    requires c.Valid() && t.Shaped()
    ensures u.Shaped()
  {
    t.(buttons := if t.flags.recovery then ForgetPresses(t.buttons, t.vr) else t.buttons,
       flags := t.flags.(recovery := false, resetPending := false),
       mapper := if t.flags.resetPending then ResetBoth(c, t.mapper) else t.mapper,
       output := t.output.(safeHold := false))
  }

  // ----- buttons -----

  /** `update_long_press`: the new state, and whether the press fires now. */
  function LongPress(c: Config, condition: bool, now: real, p: Press): (Press, bool) {
    if !condition then (IDLE_PRESS, false)
    else if !p.active then (p.(active := true, startedAt := Finite(now)), false)
    else if !p.fired && p.startedAt.Finite? && now - p.startedAt.v >= c.longPress then (p.(fired := true), true)
    else (p, false)
  }

  predicate Combo(j: Joy) { j.xa && j.yb }

  /** Which presses fire. */
  datatype Fired = Fired(mode: bool, left: bool, right: bool, both: bool)

  function UpdatePresses(c: Config, b: Buttons, v: Input, now: real): (r: (Buttons, Fired))
    requires b.Shaped() && v.Shaped()
    ensures r.0.Shaped()
  {
    var l, r := v.joys[0].value, v.joys[1].value;
    var two := Combo(l) && Combo(r);
    var mode := LongPress(c, two, now, b.mode);
    var left := if two then (IDLE_PRESS, false) else LongPress(c, Combo(l), now, b.left);
    var right := if two then (IDLE_PRESS, false) else LongPress(c, Combo(r), now, b.right);
    var both := LongPress(c, l.menu || r.menu, now, b.both);
    (Buttons(mode.0, left.0, right.0, both.0, [l.joystick, r.joystick],
             if r.joystick && !b.sticks[1] then (b.gear + 1) % 3 else b.gear),
     Fired(mode.1, left.1, right.1, both.1))
  }

  function Toggled(m: Mode): Mode { if m == Relative then Absolute else Relative }

  function FireMapper(c: Config, m: Mapper, f: Fired): (n: Mapper)
    requires c.Valid() && m.Shaped()
    ensures n.Shaped()
  {
    var toggled := if f.mode then SetMode(m, Toggled(m.mode)) else m;
    var left := if f.left then Reset(c.mapper, toggled, 0) else toggled;
    var right := if f.right then Reset(c.mapper, left, 1) else left;
    if f.both then ResetBoth(c, right) else right
  }

  /** `process_button_events`. */
  function ProcessButtons(c: Config, t: Teleop, now: real): (u: Teleop)
    requires c.Valid() && t.Shaped()
    ensures u.Shaped()
  {
    var p := UpdatePresses(c, t.buttons, t.vr, now);
    t.(buttons := p.0, mapper := FireMapper(c, t.mapper, p.1))
  }

  // ----- active commands -----

  function UpdateTarget(c: Config, t: Teleop, now: Double, side: Side, m: Mapper): (r: (Mapper, bool))
    requires c.Valid() && t.Shaped() && m.Shaped()
    ensures r.0.Shaped()
  {
    if !ArmFresh(c, t.arms, now, side) then (Release(m, side), false)
    else Update(c.mapper, m, side, t.vr.hands[side].value, t.vr.joys[side].value.grip, t.arms[side].value)
  }

  function Deadzone(c: Config, value: real): real {
    var clamped := Clamp(value, -1.0, 1.0);
    if Abs(clamped) < c.deadzone then 0.0 else clamped
  }

  lemma PortionInside(share: real, width: real)
    requires 0.0 <= share <= 1.0 && width >= 0.0
    ensures 0.0 <= share * width <= width
  {
    assert (1.0 - share) * width >= 0.0;
  }

  function Portion(share: real, width: real): (r: real)
    requires 0.0 <= share <= 1.0 && width >= 0.0
    ensures 0.0 <= r <= width
  {
    PortionInside(share, width);
    share * width
  }

  function AtTrigger(r: Range, trigger: real): real
    requires r.Valid()
  {
    r.low + Portion(Clamp(trigger, 0.0, 1.0), r.high - r.low)
  }

  /** Only valid joysticks are ever stored. */
  predicate JoysValid(v: Input) {
    |v.joys| == 2 && ValidJoy(v.joys[0].value) && ValidJoy(v.joys[1].value)
  }

  function Jog(c: Config, v: Input, commands: seq<real>, dt: real): (r: seq<real>)
    requires c.Valid() && JoysValid(v) && |commands| == AUXILIARIES
    ensures |r| == AUXILIARIES
  {
    var lift := commands[LIFT_AXIS] + Deadzone(c, v.joys[1].value.y.v) * c.liftSpeed * dt;
    [AtTrigger(c.ranges[0], v.joys[0].value.trigger.v), AtTrigger(c.ranges[1], v.joys[1].value.trigger.v),
     Clamp(lift, c.ranges[LIFT_AXIS].low, c.ranges[LIFT_AXIS].high)]
  }

  function BaseSpeed(c: Config, v: Input, gear: nat): (r: seq<real>)
    requires c.Valid() && JoysValid(v) && gear < 3
    ensures |r| == 3
  {
    var l, r, scale := v.joys[0].value, v.joys[1].value, c.gearScales[gear];
    [Deadzone(c, l.y.v) * c.baseMax[0] * scale, -Deadzone(c, l.x.v) * c.baseMax[1] * scale,
     -Deadzone(c, r.x.v) * c.baseMax[2] * scale]
  }

  /** Both targets: the mapper, and which were updated. */
  function UpdateTargets(c: Config, t: Teleop, now: Double): (r: (Mapper, seq<bool>))
    requires c.Valid() && t.Shaped()
    ensures r.0.Shaped() && |r.1| == 2
  {
    var left := UpdateTarget(c, t, now, 0, t.mapper);
    var right := UpdateTarget(c, t, now, 1, left.0);
    (right.0, [left.1, right.1])
  }

  /** `update_active_commands`. */
  function ActiveCommands(c: Config, t: Teleop, now: Double, dt: real, enabled: bool): (r: (Teleop, seq<bool>))
    requires c.Valid() && t.Shaped() && JoysValid(t.vr)
    ensures r.0.Shaped() && |r.1| == 2
  {
    var u := UpdateTargets(c, t, now);
    (t.(mapper := u.0,
        output := t.output.(
          auxiliary := if enabled then Jog(c, t.vr, t.output.auxiliary, dt) else t.output.auxiliary,
          base := BaseSpeed(c, t.vr, t.buttons.gear))),
     u.1)
  }

  // ----- the tick -----

  function Lapse(c: Config, f: Flags, now: Double): real {
    if f.ticked && now.Finite? && f.lastTick.Finite? && now.v >= f.lastTick.v
    then Clamp(now.v - f.lastTick.v, 0.0, c.watchdog) else 0.0
  }

  predicate MustHold(c: Config, t: Teleop, now: Double)
    requires t.Shaped()
  {
    !AllInputsFresh(c, t.vr, now) || (t.flags.recovery && AnyGrip(t.vr))
  }

  /** The commands of this tick, and which targets were updated. */
  function Decide(c: Config, t: Teleop, now: Double, dt: real): (r: (Teleop, seq<bool>))
    requires c.Valid() && t.Shaped() && JoysValid(t.vr)
    ensures r.0.Shaped() && |r.1| == 2
  {
    if MustHold(c, t, now) then (EnterSafeHold(c, t, AllInputsFresh(c, t.vr, now)), [false, false])
    else
      ActiveCommands(c, ProcessButtons(c, LeaveSafeHold(c, t), now.v), now, dt,
                     AuxiliaryFresh(c, t.axes, now) && !t.flags.holdPending)
  }

  /** A measured hold becomes due when the auxiliary feedback comes back. */
  function Started(c: Config, t: Teleop, now: Double): (u: Teleop)
    requires t.Shaped()
    ensures u.Shaped()
  {
    var back := AuxiliaryFresh(c, t.axes, now) && !t.flags.freshBefore;
    t.(flags := t.flags.(ticked := true, lastTick := now, holdPending := t.flags.holdPending || back))
  }

  function SettleHold(c: Config, t: Teleop, now: Double): (u: Teleop)
    requires c.Valid() && t.Shaped()
    ensures u.Shaped()
  {
    if AuxiliaryFresh(c, t.axes, now) && t.flags.holdPending then
      t.(flags := t.flags.(holdPending := false),
         output := t.output.(auxiliary := HoldMeasured(c, t.axes, t.output.auxiliary)))
    else t
  }

  function Publish(c: Config, t: Teleop, now: Double, updated: seq<bool>): (u: Teleop)
    requires t.Shaped() && |updated| == 2
    ensures u.Shaped()
  {
    var o, live := t.output, AuxiliaryFresh(c, t.axes, now);
    t.(flags := t.flags.(freshBefore := live),
       output := o.(
         target := [t.mapper.hands[0].target, t.mapper.hands[1].target],
         targetValid := [!o.safeHold && ArmFresh(c, t.arms, now, 0) && updated[0],
                         !o.safeHold && ArmFresh(c, t.arms, now, 1) && updated[1]],
         auxiliaryValid := live))
  }

  function Tick(c: Config, t: Teleop, now: Double): (u: Teleop)
    requires c.Valid() && t.Shaped() && JoysValid(t.vr)
    ensures u.Shaped()
  {
    var d := Decide(c, Started(c, t, now), now, Lapse(c, t.flags, now));
    Publish(c, SettleHold(c, d.0, now), now, d.1)
  }
}
