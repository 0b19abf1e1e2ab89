/** What triggers and sticks command: grippers and lift when they may move, the measured values when
    they must not jump, and the base. */
module TeleopCommands {
  import opened CommandMailbox
  import opened Doubles
  import opened PoseMapper
  import opened TeleopModel
  import opened TeleopSafety
  import opened TeleopRuns
  import opened TeleopInputs
  import opened TeleopTicks
  import opened TeleopOutcomes

  // ----- the joysticks -----

  const REST: Joy := Joy(Finite(0.0), Finite(0.0), Finite(0.0), false, false, false, false, false)

  /** The joystick of the latest frame if it shows the hand, else one at rest. */
  ghost function Stick(calls: seq<Call>, side: Side): (j: Joy)
    ensures j.x.Finite? && j.y.Finite? && j.trigger.Finite? && 0.0 <= j.trigger.v <= 1.0
    ensures -1.0 <= j.x.v <= 1.0 && -1.0 <= j.y.v <= 1.0
  {
    var n := Latest(calls, ConcernsVr());
    if n.Some? && Shows(calls[n.value], side) then calls[n.value].frame.joys[side] else REST
  }

  lemma StickIsTold(calls: seq<Call>, v: Input, side: Side)
    requires VrTold(calls, v)
    ensures v.joys[side].value == Stick(calls, side)
  {}

  /** Small deflections count as none. */
  function Beyond(c: Config, value: real): real {
    if -c.deadzone < value < c.deadzone then 0.0 else value
  }

  lemma DeadzoneIsBeyond(c: Config, value: real)
    requires c.Valid() && -1.0 <= value <= 1.0
    ensures Deadzone(c, value) == Beyond(c, value)
  {}

  // ----- the base -----

  /** The left stick forward drives forward, left drives left; the right stick left turns left. */
  predicate Drives(c: Config, left: Joy, right: Joy, scale: real, base: seq<real>)
    requires c.Valid() && left.x.Finite? && left.y.Finite? && right.x.Finite?
  {
    && |base| == 3
    && base[0] == Beyond(c, left.y.v) * c.baseMax[0] * scale
    && base[1] == -Beyond(c, left.x.v) * c.baseMax[1] * scale
    && base[2] == -Beyond(c, right.x.v) * c.baseMax[2] * scale
  }

  /** Nothing moves in SAFE_HOLD. */
  ghost predicate BaseTold(c: Config, before: seq<Call>, r: Record)
    requires c.Valid()
  {
    && r.Shaped() && r.gear < 3
    && if r.output.safeHold then r.output.base == [0.0, 0.0, 0.0]
       else Drives(c, Stick(before, 0), Stick(before, 1), c.gearScales[r.gear], r.output.base)
  }

  lemma SpeedOfSticks(c: Config, v: Input, gear: nat)
    requires c.Valid() && JoysValid(v) && gear < 3
    ensures Drives(c, v.joys[0].value, v.joys[1].value, c.gearScales[gear], BaseSpeed(c, v, gear))
  {
    DeadzoneIsBeyond(c, v.joys[0].value.y.v);
    DeadzoneIsBeyond(c, v.joys[0].value.x.v);
    DeadzoneIsBeyond(c, v.joys[1].value.x.v);
  }

  ghost predicate BaseOf(c: Config, v: Input, r: Record)
    requires c.Valid() && JoysValid(v)
  {
    && r.Shaped() && r.gear < 3
    && r.output.base == if r.output.safeHold then AT_REST else BaseSpeed(c, v, r.gear)
  }

  lemma TickBase(c: Config, t: Teleop, now: Double)
    requires c.Valid() && Ready(t)
    ensures BaseOf(c, t.vr, RecordOf(c, t, now))
  {
    assert MustHold(c, Started(c, t, now), now) == MustHold(c, t, now);
  }

  lemma BaseIsTold(c: Config, calls: seq<Call>, v: Input, r: Record)
    requires c.Valid() && JoysValid(v) && VrTold(calls, v) && BaseOf(c, v, r)
    ensures BaseTold(c, calls, r)
  {
    StickIsTold(calls, v, 0);
    StickIsTold(calls, v, 1);
    SpeedOfSticks(c, v, r.gear);
  }

  lemma StateBaseTold(c: Config, calls: seq<Call>, t: Teleop, now: Double)
    requires c.Valid() && Ready(t) && StateTold(c, calls, t)
    ensures BaseTold(c, calls, RecordOf(c, t, now))
  {
    TickBase(c, t, now);
    BaseIsTold(c, calls, t.vr, RecordOf(c, t, now));
  }

  // ----- what is kept between ticks -----

  ghost predicate Invalidates(c: Config, call: Call, k: nat)
    requires c.Valid() && k < AUXILIARIES
  {
    ConcernsAxis(k)(call) && !ReadingUsable(c, call, k)
  }

  ghost function LiftMark(c: Config): Call -> bool
    requires c.Valid()
  {
    (call: Call) => call.TickAt? || (c.Valid() && Invalidates(c, call, 2))
  }

  /** Nothing has invalidated the measured lift since the last tick. */
  ghost predicate LiftUntouched(c: Config, calls: seq<Call>)
    requires c.Valid()
  {
    var n := Latest(calls, LiftMark(c));
    n.Some? && calls[n.value].TickAt?
  }

  /** Between ticks no hold is due, the last tick's time is known, and an untouched lift command is still
      that of the last tick. */
  ghost predicate Kept(c: Config, calls: seq<Call>, h: History)
    requires c.Valid()
  {
    && h.now.Shaped() && !h.now.flags.holdPending
    && (h.now.flags.ticked <==> h.ticks != [])
    && (h.ticks != [] ==>
          var last := h.ticks[|h.ticks| - 1];
          && h.now.flags.lastTick == last.at
          && (last.output.auxiliaryValid && LiftUntouched(c, calls) ==>
                && h.now.axes[2].valid && |last.output.auxiliary| == AUXILIARIES
                && h.now.output.auxiliary[2] == last.output.auxiliary[2]))
  }

  lemma MeasuredKeepsLift(c: Config, t: Teleop, r: seq<Reading>, at: Double)
    requires c.Valid() && t.Shaped() && |r| == AUXILIARIES && t.axes[2].valid
    requires !Invalidates(c, MeasuredState(r, at), 2)
    ensures var u := UpdateMeasured(c, t, r, at); u.axes[2].valid && u.output.auxiliary[2] == t.output.auxiliary[2]
    ensures UpdateMeasured(c, t, r, at).flags == t.flags
  {}

  lemma DecideKeeps(c: Config, t: Teleop, now: Double, dt: real)
    requires c.Valid() && Ready(t)
    ensures var d := Decide(c, t, now, dt).0;
      && d.axes == t.axes && d.flags.holdPending == t.flags.holdPending
      && d.flags.ticked == t.flags.ticked && d.flags.lastTick == t.flags.lastTick
  {}

  lemma TickKeeps(c: Config, t: Teleop, now: Double)
    requires c.Valid() && Ready(t) && !t.flags.holdPending
    ensures var u := Tick(c, t, now);
      && !u.flags.holdPending && u.flags.ticked && u.flags.lastTick == now && u.axes == t.axes
      && (u.output.auxiliaryValid ==> t.axes[2].valid)
  {
    DecideKeeps(c, Started(c, t, now), now, Lapse(c, t.flags, now));
  }

  lemma FrameKeeps(t: Teleop, f: Frame, at: Double)
    requires t.Shaped() && f.Shaped()
    ensures var u := UpdateVrFrame(t, f, at);
      && u.output == t.output && u.axes == t.axes
      && u.flags.holdPending == t.flags.holdPending && u.flags.ticked == t.flags.ticked
      && u.flags.lastTick == t.flags.lastTick
  {}

  lemma CallKeeps(c: Config, calls: seq<Call>, h: History, call: Call)
    requires c.Valid() && Ready(h.now) && call.Shaped() && Kept(c, calls, h)
    ensures Kept(c, calls + [call], Next(c, h, call))
  {
    LatestNext(calls, call, LiftMark(c));
    match call
    case VrFrame(frame, at) => FrameKeeps(h.now, frame, at);
    case MeasuredState(readings, at) =>
      if h.now.axes[2].valid && !Invalidates(c, call, 2) {
        MeasuredKeepsLift(c, h.now, readings, at);
      }
    case TickAt(now) => TickKeeps(c, h.now, now);
    case _ =>
  }

  lemma NothingKept(c: Config)
    requires c.Valid()
    ensures Kept(c, [], History(Initial(c), []))
  {}

  lemma KeepsNext(c: Config, calls: seq<Call>, last: Call)
    requires c.Valid() && AllCallsShaped(calls) && last.Shaped() && Kept(c, calls, After(c, calls))
    ensures AllCallsShaped(calls + [last]) && Kept(c, calls + [last], After(c, calls + [last]))
  {
    CallKeeps(c, calls, After(c, calls), last);
    assert (calls + [last])[..|calls|] == calls;
  }

  lemma {:induction false} RunKeeps(c: Config, calls: seq<Call>)
    requires c.Valid() && AllCallsShaped(calls)
    ensures Kept(c, calls, After(c, calls))
    decreases |calls|
  {
    if calls == [] {
      NothingKept(c);
    } else {
      var init, last := calls[..|calls| - 1], calls[|calls| - 1];
      RunKeeps(c, init);
      KeepsNext(c, init, last);
      assert init + [last] == calls;
    }
  }

  // ----- grippers and lift -----

  /** Seconds since the last tick, never negative and at most the watchdog's time. */
  function Since(c: Config, last: Double, now: Double): real {
    if last.Finite? && now.Finite? && now.v >= last.v then Clamp(now.v - last.v, 0.0, c.watchdog) else 0.0
  }

  /** Each trigger opens its own gripper over its whole range. */
  predicate Opened(range: Range, trigger: real, command: real) {
    command == range.low + trigger * (range.high - range.low)
  }

  /** The tick may move grippers and lift: it does not hold, and their feedback is fresh as it was before. */
  ghost predicate MayMove(ticks: seq<Record>, r: Record) {
    && !r.output.safeHold && r.output.auxiliaryValid && ticks != []
    && ticks[|ticks| - 1].output.auxiliaryValid
  }

  /** The commands must be the measured values. */
  ghost predicate MustMatch(ticks: seq<Record>, r: Record) {
    && r.output.auxiliaryValid
    && (r.output.safeHold || ticks == [] || !ticks[|ticks| - 1].output.auxiliaryValid)
  }

  /** The right stick up or down moves the lift from its last command, within its range. */
  predicate Lifted(c: Config, from: real, stick: Joy, dt: real, command: real)
    requires c.Valid() && stick.y.Finite?
  {
    command == Clamp(from + Beyond(c, stick.y.v) * c.liftSpeed * dt, c.ranges[2].low, c.ranges[2].high)
  }

  ghost predicate MovesTold(c: Config, before: seq<Call>, now: Double, ticks: seq<Record>, r: Record)
    requires c.Valid() && r.Shaped() && ticks != []
  {
    && Opened(c.ranges[0], Stick(before, 0).trigger.v, r.output.auxiliary[0])
    && Opened(c.ranges[1], Stick(before, 1).trigger.v, r.output.auxiliary[1])
    && var last := ticks[|ticks| - 1];
       (LiftUntouched(c, before) && |last.output.auxiliary| == AUXILIARIES ==>
          Lifted(c, last.output.auxiliary[2], Stick(before, 1), Since(c, last.at, now), r.output.auxiliary[2]))
  }

  ghost predicate MatchTold(c: Config, before: seq<Call>, r: Record)
    requires c.Valid() && r.Shaped()
  {
    forall k: nat | k < AUXILIARIES ::
      var n := Latest(before, ConcernsAxis(k));
      n.Some? && ReadingUsable(c, before[n.value], k) && r.output.auxiliary[k] == before[n.value].readings[k].value.v
  }

  ghost predicate AuxiliaryTold(c: Config, before: seq<Call>, now: Double, ticks: seq<Record>, r: Record)
    requires c.Valid()
  {
    && r.Shaped() && r.at == now
    && (r.output.auxiliaryValid <==>
          AxisLive(c, before, now, 0) && AxisLive(c, before, now, 1) && AxisLive(c, before, now, 2))
    && (MayMove(ticks, r) ==> MovesTold(c, before, now, ticks, r))
    && (MustMatch(ticks, r) ==> MatchTold(c, before, r))
  }

  lemma JogOpens(c: Config, v: Input, commands: seq<real>, dt: real)
    requires c.Valid() && JoysValid(v) && |commands| == AUXILIARIES
    ensures var a, l, r := Jog(c, v, commands, dt), v.joys[0].value, v.joys[1].value;
      && Opened(c.ranges[0], l.trigger.v, a[0]) && Opened(c.ranges[1], r.trigger.v, a[1])
      && Lifted(c, commands[2], r, dt, a[2])
  {
    DeadzoneIsBeyond(c, v.joys[1].value.y.v);
  }

  lemma TickJogs(c: Config, t: Teleop, now: Double)
    requires c.Valid() && Ready(t) && !t.flags.holdPending && t.flags.freshBefore
    requires !MustHold(c, t, now) && AuxiliaryFresh(c, t.axes, now)
    ensures Tick(c, t, now).output.auxiliary == Jog(c, t.vr, t.output.auxiliary, Lapse(c, t.flags, now))
  {
    assert MustHold(c, Started(c, t, now), now) == MustHold(c, t, now);
  }

  /** What the record of a tick in state `t` shows of its auxiliary commands. */
  ghost predicate AuxiliaryOf(c: Config, t: Teleop, now: Double, r: Record)
    requires c.Valid() && t.Shaped() && JoysValid(t.vr)
  {
    && r.Shaped() && r.at == now && r.output.auxiliaryValid == AuxiliaryFresh(c, t.axes, now)
    && (!r.output.safeHold && r.output.auxiliaryValid && t.flags.freshBefore ==>
          r.output.auxiliary == Jog(c, t.vr, t.output.auxiliary, Lapse(c, t.flags, now)))
    && (r.output.auxiliaryValid && (r.output.safeHold || !t.flags.freshBefore) ==>
          AtMeasured(r.output.auxiliary, t.axes))
  }

  lemma TickAuxiliaryOf(c: Config, t: Teleop, now: Double)
    requires c.Valid() && Ready(t) && !t.flags.holdPending && InRanges(c, t.output.auxiliary, t.axes)
    ensures AuxiliaryOf(c, t, now, RecordOf(c, t, now))
  {
    TickFlags(c, t, now);
    TickHold(c, t, now);
    TickAuxiliary(c, t, now);
    if !MustHold(c, t, now) && AuxiliaryFresh(c, t.axes, now) && t.flags.freshBefore {
      TickJogs(c, t, now);
    }
  }

  lemma MovesAreTold(c: Config, calls: seq<Call>, h: History, now: Double, r: Record)
    requires c.Valid() && Ready(h.now) && Continues(h) && VrTold(calls, h.now.vr) && Kept(c, calls, h)
    requires AuxiliaryOf(c, h.now, now, r) && MayMove(h.ticks, r)
    ensures MovesTold(c, calls, now, h.ticks, r)
  {
    var t := h.now;
    JogOpens(c, t.vr, t.output.auxiliary, Lapse(c, t.flags, now));
    StickIsTold(calls, t.vr, 0);
    StickIsTold(calls, t.vr, 1);
    assert Lapse(c, t.flags, now) == Since(c, h.ticks[|h.ticks| - 1].at, now);
  }

  lemma MatchIsTold(c: Config, calls: seq<Call>, t: Teleop, now: Double, r: Record)
    requires c.Valid() && Ready(t) && StateTold(c, calls, t) && r.Shaped()
    requires AuxiliaryFresh(c, t.axes, now) && AtMeasured(r.output.auxiliary, t.axes)
    ensures MatchTold(c, calls, r)
  {
    forall k: nat | k < AUXILIARIES
      ensures var n := Latest(calls, ConcernsAxis(k));
        n.Some? && ReadingUsable(c, calls[n.value], k) && r.output.auxiliary[k] == calls[n.value].readings[k].value.v
    {
      assert AxisTold(c, calls, k, t.axes[k]);
      assert t.axes[k].valid;
    }
  }

  lemma AuxiliaryIsTold(c: Config, calls: seq<Call>, h: History, now: Double, r: Record)
    requires c.Valid() && Ready(h.now) && Continues(h) && StateTold(c, calls, h.now) && Kept(c, calls, h)
    requires AuxiliaryOf(c, h.now, now, r)
    ensures AuxiliaryTold(c, calls, now, h.ticks, r)
  {
    AxisLiveIff(c, calls, h.now, now, 0);
    AxisLiveIff(c, calls, h.now, now, 1);
    AxisLiveIff(c, calls, h.now, now, 2);
    if MayMove(h.ticks, r) {
      MovesAreTold(c, calls, h, now, r);
    }
    if MustMatch(h.ticks, r) {
      MatchIsTold(c, calls, h.now, now, r);
    }
  }

  lemma StateAuxiliaryTold(c: Config, calls: seq<Call>, h: History, now: Double)
    requires c.Valid() && Inv(c, h) && StateTold(c, calls, h.now) && Kept(c, calls, h)
    ensures AuxiliaryTold(c, calls, now, h.ticks, RecordOf(c, h.now, now))
  {
    TickAuxiliaryOf(c, h.now, now);
    AuxiliaryIsTold(c, calls, h, now, RecordOf(c, h.now, now));
  }

  // ----- commands that nothing moves -----

  /** A reading becomes the command exactly when it is the first usable one of its axis. */
  lemma FirstReadingIsCommanded(c: Config, t: Teleop, readings: seq<Reading>, at: Double, k: nat)
    requires c.Valid() && t.Shaped() && |readings| == AUXILIARIES && k < AUXILIARIES
    ensures UpdateMeasured(c, t, readings, at).output.auxiliary[k] ==
      if readings[k].present && ReadingUsable(c, MeasuredState(readings, at), k) && !t.axes[k].valid
      then readings[k].value.v else t.output.auxiliary[k]
  {}

  lemma IdleRun(c: Config, t: Teleop, now: Double)
    requires c.Valid() && Ready(t) && !MustHold(c, t, now) && !AuxiliaryFresh(c, t.axes, now)
    ensures Tick(c, t, now).output.auxiliary == t.output.auxiliary
  {
    assert !MustHold(c, Started(c, t, now), now);
  }

  lemma IdleHold(c: Config, t: Teleop, now: Double)
    requires c.Valid() && Ready(t) && MustHold(c, t, now) && !AuxiliaryFresh(c, t.axes, now)
    ensures Tick(c, t, now).output.auxiliary == HoldMeasured(c, t.axes, t.output.auxiliary)
  {
    assert MustHold(c, Started(c, t, now), now);
  }

  /** Without fresh feedback a running tick leaves the commands as they are; a holding one puts those of
      measured axes at the measured values. */
  lemma IdleCommandsStay(c: Config, t: Teleop, now: Double, k: nat)
    requires c.Valid() && Ready(t) && InRanges(c, t.output.auxiliary, t.axes) && k < AUXILIARIES
    requires !AuxiliaryFresh(c, t.axes, now)
    ensures Tick(c, t, now).output.auxiliary[k] ==
      if MustHold(c, t, now) && t.axes[k].valid then t.axes[k].value else t.output.auxiliary[k]
  {
    if MustHold(c, t, now) {
      IdleHold(c, t, now);
      HoldInRanges(c, t.axes, t.output.auxiliary);
    } else {
      IdleRun(c, t, now);
    }
  }

  // ----- main results -----

  ghost predicate CommandsTold(c: Config, before: seq<Call>, now: Double, ticks: seq<Record>, r: Record)
    requires c.Valid()
  {
    BaseTold(c, before, r) && AuxiliaryTold(c, before, now, ticks, r)
  }

  ghost function CommandsClaim(c: Config): Claim
    requires c.Valid()
  {
    (before, now, ticks, r) => c.Valid() && CommandsTold(c, before, now, ticks, r)
  }

  lemma CallsTellCommands(c: Config, before: seq<Call>, now: Double)
    requires c.Valid() && AllCallsShaped(before)
    ensures CommandsTold(c, before, now, After(c, before).ticks, RecordOf(c, After(c, before).now, now))
  {
    StateIsTold(c, before);
    RunKeeps(c, before);
    RunKeepsInv(c, before);
    StateBaseTold(c, before, After(c, before).now, now);
    StateAuxiliaryTold(c, before, After(c, before), now);
  }

  /** Base, grippers and lift of every tick, from the frames and readings that were passed in. */
  lemma CommandsFollowTheSticks(c: Config, calls: seq<Call>, k: nat)
    requires c.Valid() && AllCallsShaped(calls) && k < |After(c, calls).ticks|
    ensures |Ticks(calls)| == |After(c, calls).ticks|
    ensures var ticks := After(c, calls).ticks;
      CommandsTold(c, Before(calls, k), TimeOf(calls, k), ticks[..k], ticks[k])
  {
    forall before, now | AllCallsShaped(before) ensures Holds(c, CommandsClaim(c), before, now) {
      CallsTellCommands(c, before, now);
    }
    CountTicks(c, calls);
    EveryTick(c, CommandsClaim(c), calls, k);
  }
}
