/** What holds of every tick, over every run of calls on the teleop manager. */
module TeleopSafety {
  import opened Doubles
  import opened PoseMapper
  import opened TeleopModel

  // ----- runs -----

  datatype Call =
    | VrFrame(frame: Frame, at: Double)
    | ClearVrInput
    | MeasuredState(readings: seq<Reading>, at: Double)
    | InvalidateState
    | InvalidateOne(axis: nat)
    | ArmPose(side: Side, pose: Pose, at: Double)
    | InvalidateArm(side: Side)
    | TickAt(now: Double)
  {
    predicate Shaped() {
      match this
      case VrFrame(frame, _) => frame.Shaped()
      case MeasuredState(readings, _) => |readings| == AUXILIARIES
      case InvalidateOne(axis) => axis < AUXILIARIES
      case _ => true
    }
  }

  ghost predicate Ready(t: Teleop) {
    t.Shaped() && JoysValid(t.vr)
  }

  ghost function Apply(c: Config, t: Teleop, call: Call): (u: Teleop)
    requires c.Valid() && Ready(t) && call.Shaped()
    ensures u.Shaped()
  {
    match call
    case VrFrame(frame, at) => UpdateVrFrame(t, frame, at)
    case ClearVrInput => ClearInput(t)
    case MeasuredState(readings, at) => UpdateMeasured(c, t, readings, at)
    case InvalidateState => t.(axes := InvalidateMeasured(t.axes))
    case InvalidateOne(axis) => t.(axes := InvalidateAxis(t.axes, axis))
    case ArmPose(side, pose, at) => t.(arms := UpdatePose(t.arms, side, pose, at))
    case InvalidateArm(side) => t.(arms := InvalidatePose(t.arms, side))
    case TickAt(now) => Tick(c, t, now)
  }

  /** What a tick saw and published. `held`: the clutch was already engaged when the tick came to
      move the target; `recovering`: the grips had to be released first. */
  datatype Record = Record(
    output: Output, mode: Mode, hands: seq<Pose>, arms: seq<Pose>, axes: seq<Measured>,
    inputsFresh: bool, anyGrip: bool, held: seq<bool>, at: Double, gear: nat, recovering: bool,
    sticks: seq<Joy>)
  {
    predicate Shaped() {
      output.Shaped() && |hands| == 2 == |arms| == |held| == |sticks| && |axes| == AUXILIARIES
    }
  }

  /** The mapper when a tick that does not hold comes to move the targets. */
  ghost function MapperAtUpdate(c: Config, t: Teleop, now: real): (m: Mapper)
    requires c.Valid() && t.Shaped()
    ensures m.Shaped()
  {
    ProcessButtons(c, LeaveSafeHold(c, t), now).mapper
  }

  ghost function RecordOf(c: Config, t: Teleop, now: Double): (r: Record)
    requires c.Valid() && Ready(t)
    ensures r.Shaped()
  {
    var u := Tick(c, t, now);
    Record(u.output, u.mapper.mode, [t.vr.hands[0].value, t.vr.hands[1].value],
           [t.arms[0].value, t.arms[1].value], t.axes, AllInputsFresh(c, t.vr, now), AnyGrip(t.vr),
           if MustHold(c, t, now) then [false, false]
           else [MapperAtUpdate(c, t, now.v).hands[0].clutchActive, MapperAtUpdate(c, t, now.v).hands[1].clutchActive],
           now, u.buttons.gear, t.flags.recovery, [t.vr.joys[0].value, t.vr.joys[1].value])
  }

  /** The manager, and a record of each of its ticks. */
  datatype History = History(now: Teleop, ticks: seq<Record>)

  ghost function Next(c: Config, h: History, call: Call): (n: History)
    requires c.Valid() && Ready(h.now) && call.Shaped()
    ensures n.now.Shaped()
  {
    History(Apply(c, h.now, call), if call.TickAt? then h.ticks + [RecordOf(c, h.now, call.now)] else h.ticks)
  }

  // ----- joysticks -----

  lemma HandKeepsJoys(v: Input, f: Frame, side: Side, at: Double)
    requires v.Shaped() && JoysValid(v) && f.Shaped()
    ensures JoysValid(TakeHand(v, f, side, at))
  {}

  lemma TickKeepsInputs(c: Config, t: Teleop, now: Double)
    requires c.Valid() && Ready(t)
    ensures var u := Tick(c, t, now); u.vr == t.vr && u.arms == t.arms && u.axes == t.axes
  {}

  lemma CallKeepsReady(c: Config, t: Teleop, call: Call)
    requires c.Valid() && Ready(t) && call.Shaped()
    ensures Ready(Apply(c, t, call))
  {
    match call
    case VrFrame(frame, at) =>
      var seen := t.(vr := t.vr.(headReceived := true, headAt := at));
      HandKeepsJoys(seen.vr, frame, 0, at);
      HandKeepsJoys(UpdateHandInput(seen, frame, 0, at).vr, frame, 1, at);
    case TickAt(now) => TickKeepsInputs(c, t, now);
    case _ =>
  }

  // ----- SAFE_HOLD -----

  ghost predicate HoldImpliesRecovery(t: Teleop) {
    t.output.safeHold ==> t.flags.recovery
  }

  lemma VrFrameKeepsRecovery(t: Teleop, f: Frame, at: Double)
    requires t.Shaped() && f.Shaped()
    ensures var u := UpdateVrFrame(t, f, at); u.output == t.output && (t.flags.recovery ==> u.flags.recovery)
  {}

  lemma TickHold(c: Config, t: Teleop, now: Double)
    requires c.Valid() && Ready(t)
    ensures var u := Tick(c, t, now);
      && u.output.safeHold == MustHold(c, t, now)
      && (MustHold(c, t, now) ==> u.flags.recovery)
  {
    assert MustHold(c, Started(c, t, now), now) == MustHold(c, t, now);
  }

  lemma CallKeepsRecovery(c: Config, t: Teleop, call: Call)
    requires c.Valid() && Ready(t) && call.Shaped() && HoldImpliesRecovery(t)
    ensures HoldImpliesRecovery(Apply(c, t, call))
  {
    match call
    case VrFrame(frame, at) => VrFrameKeepsRecovery(t, frame, at);
    case TickAt(now) => TickHold(c, t, now);
    case _ =>
  }

  /** The output a tick starts from is that of the tick before. */
  ghost predicate Continues(h: History) {
    && (h.ticks == [] ==> h.now.output.safeHold && !h.now.flags.freshBefore)
    && (h.ticks != [] ==>
          var last := h.ticks[|h.ticks| - 1].output;
          h.now.output.safeHold == last.safeHold && h.now.flags.freshBefore == last.auxiliaryValid)
  }

  lemma TickFlags(c: Config, t: Teleop, now: Double)
    requires c.Valid() && Ready(t)
    ensures var u := Tick(c, t, now);
      u.flags.freshBefore == AuxiliaryFresh(c, t.axes, now) == u.output.auxiliaryValid
  {}

  lemma VrFrameKeepsFlags(t: Teleop, f: Frame, at: Double)
    requires t.Shaped() && f.Shaped()
    ensures UpdateVrFrame(t, f, at).flags.freshBefore == t.flags.freshBefore
  {}

  lemma CallContinues(c: Config, h: History, call: Call)
    requires c.Valid() && Ready(h.now) && call.Shaped() && Continues(h)
    ensures Continues(Next(c, h, call))
  {
    match call
    case VrFrame(frame, at) =>
      VrFrameKeepsRecovery(h.now, frame, at);
      VrFrameKeepsFlags(h.now, frame, at);
    case TickAt(now) => TickFlags(c, h.now, now);
    case _ =>
  }

  /** A tick leaves SAFE_HOLD, which is also the initial state, only with all inputs fresh and both
      grips released. */
  ghost predicate LeavesReleased(ticks: seq<Record>, k: nat)
    requires k < |ticks|
  {
    (!ticks[k].output.safeHold && (k == 0 || ticks[k - 1].output.safeHold)) ==>
      ticks[k].inputsFresh && !ticks[k].anyGrip
  }

  lemma TickLeavesReleased(c: Config, h: History, now: Double)
    requires c.Valid() && Ready(h.now) && Continues(h) && HoldImpliesRecovery(h.now)
    ensures LeavesReleased(h.ticks + [RecordOf(c, h.now, now)], |h.ticks|)
  {
    TickHold(c, h.now, now);
  }

  // ----- the auxiliary commands -----

  ghost predicate InRanges(c: Config, commands: seq<real>, axes: seq<Measured>)
    requires c.Valid()
  {
    && |commands| == AUXILIARIES == |axes|
    && forall k | 0 <= k < AUXILIARIES ::
         && c.ranges[k].Contains(commands[k])
         && (axes[k].valid ==> c.ranges[k].Contains(axes[k].value))
  }

  lemma AxisKeepsRanges(c: Config, axes: seq<Measured>, commands: seq<real>, k: nat, r: Reading, at: Double)
    requires c.Valid() && InRanges(c, commands, axes) && k < AUXILIARIES
    ensures var u := UpdateAxis(c, axes, commands, k, r, at); InRanges(c, u.1, u.0)
  {}

  lemma AxesKeepRanges(c: Config, axes: seq<Measured>, commands: seq<real>, r: seq<Reading>, at: Double)
    requires c.Valid() && InRanges(c, commands, axes) && |r| == AUXILIARIES
    ensures var u := UpdateAxes(c, axes, commands, r, at); InRanges(c, u.1, u.0)
  {
    if at.Finite? {
      AxisKeepsRanges(c, axes, commands, 0, r[0], at);
      var a := UpdateAxis(c, axes, commands, 0, r[0], at);
      AxisKeepsRanges(c, a.0, a.1, 1, r[1], at);
      var b := UpdateAxis(c, a.0, a.1, 1, r[1], at);
      AxisKeepsRanges(c, b.0, b.1, 2, r[2], at);
    }
  }

  lemma JogInRanges(c: Config, v: Input, commands: seq<real>, dt: real, axes: seq<Measured>)
    requires c.Valid() && JoysValid(v) && InRanges(c, commands, axes)
    ensures InRanges(c, Jog(c, v, commands, dt), axes)
  {}

  lemma HoldInRanges(c: Config, axes: seq<Measured>, commands: seq<real>)
    requires c.Valid() && InRanges(c, commands, axes)
    ensures var held := HoldMeasured(c, axes, commands);
      && InRanges(c, held, axes)
      && forall k | 0 <= k < AUXILIARIES && axes[k].valid :: held[k] == axes[k].value
  {}

  /** The commands are the measured values. */
  ghost predicate AtMeasured(commands: seq<real>, axes: seq<Measured>) {
    |commands| == AUXILIARIES == |axes| && forall k | 0 <= k < AUXILIARIES :: commands[k] == axes[k].value
  }

  lemma DecideKeepsRanges(c: Config, t: Teleop, now: Double, dt: real)
    requires c.Valid() && Ready(t) && InRanges(c, t.output.auxiliary, t.axes)
    ensures var d := Decide(c, t, now, dt);
      && InRanges(c, d.0.output.auxiliary, d.0.axes) && d.0.axes == t.axes
      && d.0.flags.holdPending == t.flags.holdPending
      && (MustHold(c, t, now) && AuxiliaryFresh(c, t.axes, now) ==> AtMeasured(d.0.output.auxiliary, t.axes))
  {
    HoldInRanges(c, t.axes, t.output.auxiliary);
    JogInRanges(c, t.vr, t.output.auxiliary, dt, t.axes);
  }

  /** No jump: valid commands in SAFE_HOLD, or right after invalid ones, are the measured values. */
  ghost predicate Bumpless(c: Config, ticks: seq<Record>, k: nat)
    requires c.Valid() && k < |ticks|
  {
    var r := ticks[k];
    && InRanges(c, r.output.auxiliary, r.axes)
    && (r.output.auxiliaryValid && (r.output.safeHold || k == 0 || !ticks[k - 1].output.auxiliaryValid) ==>
          AtMeasured(r.output.auxiliary, r.axes))
  }

  lemma TickAuxiliary(c: Config, t: Teleop, now: Double)
    requires c.Valid() && Ready(t) && InRanges(c, t.output.auxiliary, t.axes)
    ensures var u := Tick(c, t, now);
      && InRanges(c, u.output.auxiliary, t.axes)
      && (AuxiliaryFresh(c, t.axes, now) && (MustHold(c, t, now) || !t.flags.freshBefore) ==>
            AtMeasured(u.output.auxiliary, t.axes))
  {
    var s := Started(c, t, now);
    var d := Decide(c, s, now, Lapse(c, t.flags, now)).0;
    assert MustHold(c, s, now) == MustHold(c, t, now);
    DecideKeepsRanges(c, s, now, Lapse(c, t.flags, now));
    HoldInRanges(c, d.axes, d.output.auxiliary);
  }

  lemma TickIsBumpless(c: Config, h: History, now: Double)
    requires c.Valid() && Ready(h.now) && Continues(h) && InRanges(c, h.now.output.auxiliary, h.now.axes)
    ensures Bumpless(c, h.ticks + [RecordOf(c, h.now, now)], |h.ticks|)
    ensures InRanges(c, Tick(c, h.now, now).output.auxiliary, h.now.axes)
  {
    TickAuxiliary(c, h.now, now);
    TickFlags(c, h.now, now);
    TickHold(c, h.now, now);
  }

  lemma CallKeepsRanges(c: Config, h: History, call: Call)
    requires c.Valid() && Ready(h.now) && call.Shaped() && Continues(h)
    requires InRanges(c, h.now.output.auxiliary, h.now.axes)
    ensures var u := Apply(c, h.now, call); InRanges(c, u.output.auxiliary, u.axes)
  {
    match call
    case VrFrame(frame, at) => VrFrameKeepsRecovery(h.now, frame, at);
    case MeasuredState(readings, at) => AxesKeepRanges(c, h.now.axes, h.now.output.auxiliary, readings, at);
    case TickAt(now) =>
      TickIsBumpless(c, h, now);
      TickKeepsInputs(c, h.now, now);
    case _ =>
  }
}
