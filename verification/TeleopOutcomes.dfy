/** What a tick publishes, said of the frames, poses and readings passed in: which targets are valid,
    where they lie, and what the triggers and sticks command. */
module TeleopOutcomes {
  import opened CommandMailbox
  import opened Doubles
  import opened PoseMapper
  import opened TeleopModel
  import opened TeleopSafety
  import opened TeleopRuns
  import opened TeleopInputs
  import opened TeleopTicks
  import opened Reclutch

  // ----- what a record shows of the calls -----

  /** The latest frame shows the hand at `position`. */
  ghost predicate HandAt(calls: seq<Call>, side: Side, position: Vector) {
    var n := Latest(calls, ConcernsVr());
    && n.Some? && Shows(calls[n.value], side)
    && calls[n.value].frame.poses[side].position == position
  }

  /** The arm was last measured at `position`, not longer ago than its timeout. */
  ghost predicate ArmAt(c: Config, calls: seq<Call>, now: Double, side: Side, position: Vector) {
    var n := Latest(calls, ConcernsArm(side));
    && n.Some? && PoseUsable(calls[n.value]) && calls[n.value].pose.position == position
    && now.Finite? && 0.0 <= now.v - calls[n.value].at.v <= c.armTimeout
  }

  ghost predicate ArmLive(c: Config, calls: seq<Call>, now: Double, side: Side) {
    var n := Latest(calls, ConcernsArm(side));
    n.Some? && PoseUsable(calls[n.value]) && ArmAt(c, calls, now, side, calls[n.value].pose.position)
  }

  ghost predicate AxisLive(c: Config, calls: seq<Call>, now: Double, k: nat)
    requires c.Valid() && k < AUXILIARIES
  {
    var n := Latest(calls, ConcernsAxis(k));
    && n.Some? && ReadingUsable(c, calls[n.value], k)
    && now.Finite? && 0.0 <= now.v - calls[n.value].at.v <= c.feedbackTimeout
  }

  lemma ArmLiveIff(c: Config, calls: seq<Call>, t: Teleop, now: Double, side: Side)
    requires c.Valid() && StateTold(c, calls, t)
    ensures ArmLive(c, calls, now, side) <==> ArmFresh(c, t.arms, now, side)
    ensures ArmLive(c, calls, now, side) ==>
      t.arms[side].value.Pose? && ArmAt(c, calls, now, side, t.arms[side].value.position)
  {}

  lemma AxisLiveIff(c: Config, calls: seq<Call>, t: Teleop, now: Double, k: nat)
    requires c.Valid() && StateTold(c, calls, t) && k < AUXILIARIES
    ensures AxisLive(c, calls, now, k) <==> AxisFresh(c, t.axes[k], now)
  {
    assert AxisTold(c, calls, k, t.axes[k]);
  }

  // ----- which targets are valid -----

  /** A target is valid exactly when the tick does not hold, the arm has been measured lately, the hand
      is shown with its grip pressed, and the clutch is held, need not be, or can engage. */
  ghost predicate ValidExactly(c: Config, before: seq<Call>, now: Double, r: Record, side: Side)
    requires c.Valid()
  {
    && r.Shaped()
    && (r.output.targetValid[side] <==>
          && !r.output.safeHold && ArmLive(c, before, now, side) && Gripped(before, side)
          && (r.mode == Absolute || r.held[side]
              || (r.arms[side].Pose? && c.mapper.workspace.Contains(r.arms[side].position))))
    && (r.output.targetValid[side] ==>
          && r.hands[side].Pose? && HandAt(before, side, r.hands[side].position)
          && r.arms[side].Pose? && ArmAt(c, before, now, side, r.arms[side].position))
  }

  lemma MovedIsValid(c: Config, before: Hand, mode: Mode, side: Side, grip: bool, after: Hand, r: Record)
    requires c.Valid() && r.Shaped() && Moved(c, before, mode, side, grip, after, r)
    requires r.held[side] == before.clutchActive && ValidPose(r.hands[side]) && ValidPose(r.arms[side])
    ensures r.output.targetValid[side] <==>
      grip && (mode == Absolute || r.held[side] || c.mapper.workspace.Contains(r.arms[side].position))
  {}

  lemma TickValidExactly(c: Config, before: seq<Call>, now: Double, side: Side)
    requires c.Valid() && AllCallsShaped(before)
    ensures ValidExactly(c, before, now, RecordOf(c, After(c, before).now, now), side)
  {
    var t := After(c, before).now;
    StateIsTold(c, before);
    StateValidExactly(c, before, t, now, side);
  }

  lemma StateValidExactly(c: Config, calls: seq<Call>, t: Teleop, now: Double, side: Side)
    requires c.Valid() && Ready(t) && StateTold(c, calls, t)
    ensures ValidExactly(c, calls, now, RecordOf(c, t, now), side)
  {
    var r := RecordOf(c, t, now);
    ArmLiveIff(c, calls, t, now, side);
    GrippedIff(calls, t.vr, side);
    TickHold(c, t, now);
    if MustHold(c, t, now) {
      HoldTickHand(c, t, now, side);
    } else {
      RunTickHand(c, t, now, side);
      HandIsTold(calls, t.vr, side);
      if ArmFresh(c, t.arms, now, side) && t.vr.joys[side].value.grip {
        var m := MapperAtUpdate(c, t, now.v);
        MovedIsValid(c, m.hands[side], m.mode, side, true, Tick(c, t, now).mapper.hands[side], r);
      }
    }
  }

  /** A pressed grip belongs to a shown hand. */
  lemma HandIsTold(calls: seq<Call>, v: Input, side: Side)
    requires VrTold(calls, v)
    ensures v.joys[side].value.grip ==> ValidPose(v.hands[side].value) && HandAt(calls, side, v.hands[side].value.position)
  {}

  ghost function ValidClaim(c: Config, side: Side): Claim
    requires c.Valid()
  {
    (before, now, ticks, r) => c.Valid() && ValidExactly(c, before, now, r, side)
  }

  lemma TargetsAreValidIff(c: Config, calls: seq<Call>, k: nat, side: Side)
    requires c.Valid() && AllCallsShaped(calls) && k < |After(c, calls).ticks|
    ensures |Ticks(calls)| == |After(c, calls).ticks|
    ensures ValidExactly(c, Before(calls, k), TimeOf(calls, k), After(c, calls).ticks[k], side)
  {
    forall before, now | AllCallsShaped(before) ensures Holds(c, ValidClaim(c, side), before, now) {
      TickValidExactly(c, before, now, side);
    }
    CountTicks(c, calls);
    EveryTick(c, ValidClaim(c, side), calls, k);
  }

  // ----- where the targets lie -----

  /** Each coordinate is that of `base`, moved by the scaled way and kept within the workspace. */
  predicate Displaced(base: Vector, way: Vector, scale: real, w: Workspace, target: Vector) {
    && target.x == Clamp(base.x + way.x * scale, w.minimum.x, w.maximum.x)
    && target.y == Clamp(base.y + way.y * scale, w.minimum.y, w.maximum.y)
    && target.z == Clamp(base.z + way.z * scale, w.minimum.z, w.maximum.z)
  }

  function Way(from: Vector, to: Vector): Vector {
    Vector(to.x - from.x, to.y - from.y, to.z - from.z)
  }

  lemma FollowIsDisplaced(base: Vector, from: Vector, to: Vector, scale: real, w: Workspace)
    ensures Displaced(base, Way(from, to), scale, w, ClampTo(Follow(base, from, to, scale), w))
  {}

  lemma FollowedIsDisplaced(c: Config, ticks: seq<Record>, side: Side, e: nat, k: nat)
    requires c.Valid() && AllShaped(ticks) && FollowsFrom(c, ticks, side, e, k)
    ensures e <= k < |ticks| && ticks[e].arms[side].Pose? && ticks[e].hands[side].Pose? && ticks[k].hands[side].Pose?
    ensures ticks[e].output.target[side] == ticks[e].arms[side].position
    ensures Displaced(ticks[e].arms[side].position, Way(ticks[e].hands[side].position, ticks[k].hands[side].position),
                      c.mapper.relativeScale, c.mapper.workspace, ticks[k].output.target[side])
    ensures forall x | e <= x <= k :: ticks[x].output.targetValid[side] && ticks[x].mode == Relative
  {
    FollowIsDisplaced(ticks[e].arms[side].position, ticks[e].hands[side].position, ticks[k].hands[side].position,
                      c.mapper.relativeScale, c.mapper.workspace);
    forall x | e <= x <= k ensures ticks[x].output.targetValid[side] && ticks[x].mode == Relative {
      assert ticks[..k + 1][x] == ticks[x];
    }
  }

  /** From `e` to `k` the target was valid and relative. It started where the arm was measured at `e`,
      and is at `k` where the way of the hand since then puts it. */
  ghost predicate FollowsPassed(
    c: Config, calls: seq<Call>, ticks: seq<Record>, side: Side, e: nat, k: nat, arm: Vector, from: Vector, to: Vector)
    requires c.Valid() && e <= k < |ticks| == |Ticks(calls)| && AllShaped(ticks)
  {
    && ArmAt(c, Before(calls, e), TimeOf(calls, e), side, arm)
    && HandAt(Before(calls, e), side, from) && HandAt(Before(calls, k), side, to)
    && ticks[e].output.target[side] == arm
    && Displaced(arm, Way(from, to), c.mapper.relativeScale, c.mapper.workspace, ticks[k].output.target[side])
    && forall x | e <= x <= k :: ticks[x].output.targetValid[side] && ticks[x].mode == Relative
  }

  lemma PassedFollows(c: Config, calls: seq<Call>, ticks: seq<Record>, side: Side, e: nat, k: nat)
    returns (arm: Vector, from: Vector, to: Vector)
    requires c.Valid() && AllShaped(ticks) && |ticks| == |Ticks(calls)| && FollowsFrom(c, ticks, side, e, k)
    requires ValidExactly(c, Before(calls, e), TimeOf(calls, e), ticks[e], side)
    requires ValidExactly(c, Before(calls, k), TimeOf(calls, k), ticks[k], side)
    ensures FollowsPassed(c, calls, ticks, side, e, k, arm, from, to)
  {
    FollowedIsDisplaced(c, ticks, side, e, k);
    arm, from, to := ticks[e].arms[side].position, ticks[e].hands[side].position, ticks[k].hands[side].position;
  }

  /** A valid target in relative mode: from the measured position of the arm when the clutch engaged,
      moved as the hand has moved since then, by the frames and poses that were passed in. */
  lemma TargetsFollowThePassedHand(c: Config, calls: seq<Call>, side: Side, k: nat)
    returns (e: nat, arm: Vector, from: Vector, to: Vector)
    requires c.Valid() && AllCallsShaped(calls) && k < |After(c, calls).ticks|
    requires var r := After(c, calls).ticks[k]; r.Shaped() && r.output.targetValid[side] && r.mode == Relative
    ensures |Ticks(calls)| == |After(c, calls).ticks| && e <= k && AllShaped(After(c, calls).ticks)
    ensures FollowsPassed(c, calls, After(c, calls).ticks, side, e, k, arm, from, to)
    ensures var ticks := After(c, calls).ticks; k == 0 || !ticks[k - 1].output.targetValid[side] ==> e == k
  {
    e := TargetsFollowTheHand(c, calls, side, k);
    TargetsAreValidIff(c, calls, e, side);
    TargetsAreValidIff(c, calls, k, side);
    arm, from, to := PassedFollows(c, calls, After(c, calls).ticks, side, e, k);
  }

  /** In absolute mode: the reset position, moved by the scaled position of the hand. */
  ghost predicate AbsoluteTold(c: Config, before: seq<Call>, r: Record, side: Side)
    requires c.Valid()
  {
    && r.Shaped()
    && (r.output.targetValid[side] && r.mode == Absolute ==>
          exists hand :: HandAt(before, side, hand) &&
            Displaced(c.mapper.reset[side], hand, c.mapper.absoluteScale, c.mapper.workspace, r.output.target[side]))
  }

  lemma MovedIsAbsolute(c: Config, before: Hand, side: Side, grip: bool, after: Hand, r: Record)
    requires c.Valid() && r.Shaped() && Moved(c, before, Absolute, side, grip, after, r)
    requires r.output.targetValid[side] && r.hands[side].Pose?
    ensures Displaced(c.mapper.reset[side], r.hands[side].position, c.mapper.absoluteScale, c.mapper.workspace, after.target)
  {}

  lemma StateAbsoluteTold(c: Config, calls: seq<Call>, t: Teleop, now: Double, side: Side)
    requires c.Valid() && Ready(t) && StateTold(c, calls, t)
    ensures AbsoluteTold(c, calls, RecordOf(c, t, now), side)
  {
    var r := RecordOf(c, t, now);
    StateValidExactly(c, calls, t, now, side);
    if r.output.targetValid[side] && r.mode == Absolute {
      if MustHold(c, t, now) {
        HoldTickHand(c, t, now, side);
      } else {
        RunTickHand(c, t, now, side);
        MovedIsAbsolute(c, MapperAtUpdate(c, t, now.v).hands[side], side, t.vr.joys[side].value.grip,
                        Tick(c, t, now).mapper.hands[side], r);
      }
    }
  }

  ghost function AbsoluteClaim(c: Config, side: Side): Claim
    requires c.Valid()
  {
    (before, now, ticks, r) => c.Valid() && AbsoluteTold(c, before, r, side)
  }

  lemma AbsoluteTargets(c: Config, calls: seq<Call>, k: nat, side: Side)
    requires c.Valid() && AllCallsShaped(calls) && k < |After(c, calls).ticks|
    ensures |Ticks(calls)| == |After(c, calls).ticks|
    ensures AbsoluteTold(c, Before(calls, k), After(c, calls).ticks[k], side)
  {
    forall before, now | AllCallsShaped(before) ensures Holds(c, AbsoluteClaim(c, side), before, now) {
      StateIsTold(c, before);
      StateAbsoluteTold(c, before, After(c, before).now, now, side);
    }
    CountTicks(c, calls);
    EveryTick(c, AbsoluteClaim(c, side), calls, k);
  }
}
