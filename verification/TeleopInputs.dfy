/** Where the values that a tick works with come from: for each hand, arm and axis, the latest call
    that concerns it. */
module TeleopInputs {
  import opened CommandMailbox
  import opened Doubles
  import opened PoseMapper
  import opened TeleopModel
  import opened TeleopSafety
  import opened TeleopRuns

  // ----- the latest call of a kind -----

  /** The position of the latest call that `concerns`. */
  ghost function Latest(calls: seq<Call>, concerns: Call -> bool): (r: Option<nat>)
    ensures r.Some? ==> r.value < |calls| && concerns(calls[r.value])
  {
    if calls == [] then None
    else if concerns(calls[|calls| - 1]) then Some(|calls| - 1)
    else Latest(calls[..|calls| - 1], concerns)
  }

  /** It is the latest: none after it does. */
  lemma {:induction false} LatestIsLast(calls: seq<Call>, concerns: Call -> bool)
    ensures match Latest(calls, concerns)
      case None => forall x | 0 <= x < |calls| :: !concerns(calls[x])
      case Some(n) => forall x | n < x < |calls| :: !concerns(calls[x])
    decreases |calls|
  {
    if calls != [] {
      LatestIsLast(calls[..|calls| - 1], concerns);
    }
  }

  ghost function ConcernsVr(): Call -> bool {
    (call: Call) => call.VrFrame? || call.ClearVrInput?
  }

  ghost function ConcernsArm(side: Side): Call -> bool {
    (call: Call) => (call.ArmPose? && call.side == side) || (call.InvalidateArm? && call.side == side)
  }

  ghost function ConcernsAxis(k: nat): Call -> bool
    requires k < AUXILIARIES
  {
    (call: Call) =>
      || call.InvalidateState? || (call.InvalidateOne? && call.axis == k)
      || (call.MeasuredState? && (call.at.NonFinite? || (|call.readings| == AUXILIARIES && call.readings[k].present)))
  }

  // ----- what such a call shows -----

  ghost predicate Accepted(call: Call) {
    call.VrFrame? && call.at.Finite? && call.frame.timestamp.Finite? && call.frame.headOk
  }

  /** The frame shows this hand: connected, with a valid pose and a joystick in range. */
  ghost predicate Shows(call: Call, side: Side) {
    && Accepted(call) && call.frame.Shaped()
    && call.frame.connected[side] && call.frame.poses[side].Pose? && call.frame.poses[side].oriented
    && var joy := call.frame.joys[side];
    && joy.x.Finite? && -1.0 <= joy.x.v <= 1.0 && joy.y.Finite? && -1.0 <= joy.y.v <= 1.0
    && joy.trigger.Finite? && 0.0 <= joy.trigger.v <= 1.0
  }

  /** The hand and its joystick are those of the latest frame, or as if never received. */
  ghost predicate HandTold(calls: seq<Call>, side: Side, v: Input) {
    && v.Shaped()
    && match Latest(calls, ConcernsVr())
       case Some(n) =>
         var call := calls[n];
         && (v.connected[side] <==> Accepted(call) && call.frame.Shaped() && call.frame.connected[side])
         && (Shows(call, side) ==>
               && v.hands[side] == TimedPose(call.frame.poses[side], call.at, true)
               && v.joys[side] == TimedJoy(call.frame.joys[side], call.at, true))
         && (!Shows(call, side) ==> NotShown(v, side))
       case None => !v.connected[side] && NotShown(v, side)
  }

  ghost predicate NotShown(v: Input, side: Side)
    requires v.Shaped()
  {
    && !v.hands[side].received && !v.joys[side].received
    && var joy := v.joys[side].value;
    && joy.x == Finite(0.0) && joy.y == Finite(0.0) && joy.trigger == Finite(0.0)
    && !joy.grip && !joy.xa && !joy.yb && !joy.menu && !joy.joystick
  }

  ghost predicate HeadTold(calls: seq<Call>, v: Input) {
    var n := Latest(calls, ConcernsVr());
    if n.Some? && Accepted(calls[n.value]) then v.headReceived && v.headAt == calls[n.value].at else !v.headReceived
  }

  ghost predicate PoseUsable(call: Call) {
    call.ArmPose? && call.at.Finite? && call.pose.Pose? && call.pose.oriented
  }

  /** The measured pose of an arm is that of the latest call about it, if that was a usable pose. */
  ghost predicate ArmTold(calls: seq<Call>, side: Side, arm: TimedPose) {
    var n := Latest(calls, ConcernsArm(side));
    if n.Some? && PoseUsable(calls[n.value])
    then arm == TimedPose(calls[n.value].pose, calls[n.value].at, true)
    else !arm.received
  }

  ghost predicate ReadingUsable(c: Config, call: Call, k: nat)
    requires c.Valid() && k < AUXILIARIES
  {
    && call.MeasuredState? && call.at.Finite? && |call.readings| == AUXILIARIES
    && call.readings[k].value.Finite? && c.ranges[k].low <= call.readings[k].value.v <= c.ranges[k].high
  }

  /** An axis is measured by the latest call about it, if that gave a value in range. */
  ghost predicate AxisTold(c: Config, calls: seq<Call>, k: nat, axis: Measured)
    requires c.Valid() && k < AUXILIARIES
  {
    var n := Latest(calls, ConcernsAxis(k));
    if n.Some? && ReadingUsable(c, calls[n.value], k)
    then axis == Measured(calls[n.value].readings[k].value.v, calls[n.value].at, true)
    else !axis.valid
  }

  // ----- every call keeps it -----

  lemma LatestNext(calls: seq<Call>, call: Call, concerns: Call -> bool)
    ensures Latest(calls + [call], concerns) == if concerns(call) then Some(|calls|) else Latest(calls, concerns)
  {
    assert (calls + [call])[..|calls|] == calls;
  }

  ghost predicate VrTold(calls: seq<Call>, v: Input) {
    HandTold(calls, 0, v) && HandTold(calls, 1, v) && HeadTold(calls, v)
  }

  lemma TakenIsTold(v: Input, f: Frame, side: Side, at: Double)
    requires v.Shaped() && f.Shaped() && Accepted(VrFrame(f, at))
    ensures HandTold([VrFrame(f, at)], side, TakeHand(v, f, side, at))
  {
    assert Latest([VrFrame(f, at)], ConcernsVr()) == Some(0);
  }

  lemma ClearedIsTold(t: Teleop, call: Call, side: Side)
    requires t.Shaped() && ConcernsVr()(call) && !Accepted(call)
    ensures HandTold([call], side, ClearInput(t).vr) && HeadTold([call], ClearInput(t).vr)
  {
    assert Latest([call], ConcernsVr()) == Some(0);
  }

  /** Taking the other hand changes nothing about this one. */
  lemma OtherHandStays(calls: seq<Call>, v: Input, f: Frame, side: Side, at: Double)
    requires v.Shaped() && f.Shaped() && HandTold(calls, side, v)
    ensures HandTold(calls, side, TakeHand(v, f, 1 - side, at))
  {}

  lemma FrameIsTold(t: Teleop, f: Frame, at: Double)
    requires t.Shaped() && f.Shaped()
    ensures VrTold([VrFrame(f, at)], UpdateVrFrame(t, f, at).vr)
  {
    var call := VrFrame(f, at);
    if Accepted(call) {
      var v := t.vr.(headReceived := true, headAt := at);
      TakenIsTold(v, f, 0, at);
      OtherHandStays([call], TakeHand(v, f, 0, at), f, 0, at);
      TakenIsTold(TakeHand(v, f, 0, at), f, 1, at);
      AcceptedTakesBoth(t, f, at);
      assert Latest([call], ConcernsVr()) == Some(0);
    } else {
      ClearedIsTold(t, call, 0);
      ClearedIsTold(t, call, 1);
    }
  }

  lemma AcceptedTakesBoth(t: Teleop, f: Frame, at: Double)
    requires t.Shaped() && f.Shaped() && Accepted(VrFrame(f, at))
    ensures UpdateVrFrame(t, f, at).vr
         == TakeHand(TakeHand(t.vr.(headReceived := true, headAt := at), f, 0, at), f, 1, at)
  {}

  lemma OneCallTells(calls: seq<Call>, call: Call, v: Input)
    requires ConcernsVr()(call) && VrTold([call], v)
    ensures VrTold(calls + [call], v)
  {
    LatestNext(calls, call, ConcernsVr());
    LatestNext([], call, ConcernsVr());
    assert [] + [call] == [call];
    assert (calls + [call])[|calls|] == call == [call][0];
  }

  lemma VrNext(c: Config, calls: seq<Call>, t: Teleop, call: Call)
    requires c.Valid() && Ready(t) && call.Shaped() && VrTold(calls, t.vr)
    ensures VrTold(calls + [call], Apply(c, t, call).vr)
  {
    LatestNext(calls, call, ConcernsVr());
    if call.VrFrame? {
      FrameIsTold(t, call.frame, call.at);
      OneCallTells(calls, call, Apply(c, t, call).vr);
    } else if call.TickAt? {
      TickKeepsInputs(c, t, call.now);
    }
  }

  lemma ArmNext(c: Config, calls: seq<Call>, t: Teleop, call: Call, side: Side)
    requires c.Valid() && Ready(t) && call.Shaped() && ArmTold(calls, side, t.arms[side])
    ensures ArmTold(calls + [call], side, Apply(c, t, call).arms[side])
  {
    LatestNext(calls, call, ConcernsArm(side));
    if call.TickAt? {
      TickKeepsInputs(c, t, call.now);
    }
  }

  lemma ReadingsAreTold(c: Config, calls: seq<Call>, t: Teleop, readings: seq<Reading>, at: Double, k: nat)
    requires c.Valid() && t.Shaped() && |readings| == AUXILIARIES && k < AUXILIARIES && AxisTold(c, calls, k, t.axes[k])
    ensures AxisTold(c, calls + [MeasuredState(readings, at)], k, UpdateMeasured(c, t, readings, at).axes[k])
  {
    LatestNext(calls, MeasuredState(readings, at), ConcernsAxis(k));
  }

  lemma AxisNext(c: Config, calls: seq<Call>, t: Teleop, call: Call, k: nat)
    requires c.Valid() && Ready(t) && call.Shaped() && k < AUXILIARIES && AxisTold(c, calls, k, t.axes[k])
    ensures AxisTold(c, calls + [call], k, Apply(c, t, call).axes[k])
  {
    LatestNext(calls, call, ConcernsAxis(k));
    match call
    case MeasuredState(readings, at) => ReadingsAreTold(c, calls, t, readings, at, k);
    case VrFrame(frame, at) => FrameKeepsAxes(t, frame, at);
    case TickAt(now) => TickKeepsInputs(c, t, now);
    case _ =>
  }

  lemma FrameKeepsAxes(t: Teleop, f: Frame, at: Double)
    requires t.Shaped() && f.Shaped()
    ensures UpdateVrFrame(t, f, at).axes == t.axes
  {}

  ghost predicate StateTold(c: Config, calls: seq<Call>, t: Teleop)
    requires c.Valid()
  {
    && t.Shaped() && VrTold(calls, t.vr)
    && (forall side: Side :: ArmTold(calls, side, t.arms[side]))
    && (forall k: nat | k < AUXILIARIES :: AxisTold(c, calls, k, t.axes[k]))
  }

  /** After any calls, every hand, arm and axis is what the latest call about it has shown. */
  lemma {:induction false} StateIsTold(c: Config, calls: seq<Call>)
    requires c.Valid() && AllCallsShaped(calls)
    ensures StateTold(c, calls, After(c, calls).now)
    decreases |calls|
  {
    if calls != [] {
      var init, last := calls[..|calls| - 1], calls[|calls| - 1];
      assert calls == init + [last];
      StateIsTold(c, init);
      var t := After(c, init).now;
      VrNext(c, init, t, last);
      forall side: Side ensures ArmTold(calls, side, Apply(c, t, last).arms[side]) {
        ArmNext(c, init, t, last, side);
      }
      forall k: nat | k < AUXILIARIES ensures AxisTold(c, calls, k, Apply(c, t, last).axes[k]) {
        AxisNext(c, init, t, last, k);
      }
      CallKeepsReady(c, t, last);
    }
  }
}
