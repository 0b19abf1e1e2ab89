/** The main results about teleoperation: every tick of every run of calls. */
module TeleopRuns {
  import opened Doubles
  import opened PoseMapper
  import opened TeleopModel
  import opened TeleopSafety
  import opened Reclutch

  ghost predicate AllCallsShaped(calls: seq<Call>) {
    forall k | 0 <= k < |calls| :: calls[k].Shaped()
  }

  /** The history of a fresh manager after these calls. */
  ghost function After(c: Config, calls: seq<Call>): (h: History)
    requires c.Valid() && AllCallsShaped(calls)
    ensures Ready(h.now)
  {
    if calls == [] then History(Initial(c), [])
    else
      var h, last := After(c, calls[..|calls| - 1]), calls[|calls| - 1];
      CallKeepsReady(c, h.now, last);
      Next(c, h, last)
  }

  // ----- the targets stay in the workspace -----

  lemma FireStaysInside(c: Config, m: Mapper, f: Fired)
    requires c.Valid() && Inside(c.mapper, m)
    ensures Inside(c.mapper, FireMapper(c, m, f))
  {
    var toggled := if f.mode then SetMode(m, Toggled(m.mode)) else m;
    ResetStaysInside(c.mapper, toggled, 0);
    var left := if f.left then Reset(c.mapper, toggled, 0) else toggled;
    ResetStaysInside(c.mapper, left, 1);
    ResetBothStaysInside(c, if f.right then Reset(c.mapper, left, 1) else left);
  }

  lemma ResetBothStaysInside(c: Config, m: Mapper)
    requires c.Valid() && Inside(c.mapper, m)
    ensures Inside(c.mapper, ResetBoth(c, m))
  {
    ResetStaysInside(c.mapper, m, 0);
    ResetStaysInside(c.mapper, Reset(c.mapper, m, 0), 1);
  }

  lemma TargetStaysInside(c: Config, t: Teleop, now: Double, side: Side, m: Mapper)
    requires c.Valid() && t.Shaped() && Inside(c.mapper, m)
    ensures Inside(c.mapper, UpdateTarget(c, t, now, side, m).0)
  {
    UpdateStaysInside(
      c.mapper, m, side, t.vr.hands[side].value, t.vr.joys[side].value.grip, t.arms[side].value);
  }

  lemma RunTickStaysInside(c: Config, t: Teleop, now: Double)
    requires c.Valid() && Ready(t) && Inside(c.mapper, t.mapper) && !MustHold(c, t, now)
    ensures Inside(c.mapper, Tick(c, t, now).mapper)
  {
    var left := LeaveSafeHold(c, t);
    ResetBothStaysInside(c, t.mapper);
    FireStaysInside(c, left.mapper, UpdatePresses(c, left.buttons, left.vr, now.v).1);
    RunTickMapper(c, t, now);
    var s := ProcessButtons(c, LeaveSafeHold(c, Started(c, t, now)), now.v);
    TargetStaysInside(c, s, now, 0, s.mapper);
    TargetStaysInside(c, s, now, 1, UpdateTarget(c, s, now, 0, s.mapper).0);
  }

  lemma TickStaysInside(c: Config, t: Teleop, now: Double)
    requires c.Valid() && Ready(t) && Inside(c.mapper, t.mapper)
    ensures Inside(c.mapper, Tick(c, t, now).mapper) && TargetsInside(c, RecordOf(c, t, now))
  {
    if MustHold(c, t, now) {
      assert MustHold(c, Started(c, t, now), now);
    } else {
      RunTickStaysInside(c, t, now);
    }
  }

  lemma VrFrameStaysInside(c: Config, t: Teleop, f: Frame, at: Double)
    requires c.Valid() && t.Shaped() && f.Shaped() && Inside(c.mapper, t.mapper)
    ensures Inside(c.mapper, UpdateVrFrame(t, f, at).mapper)
  {}

  ghost predicate TargetsInside(c: Config, r: Record)
    requires c.Valid() && r.Shaped()
  {
    c.mapper.workspace.Contains(r.output.target[0]) && c.mapper.workspace.Contains(r.output.target[1])
  }

  lemma CallStaysInside(c: Config, t: Teleop, call: Call)
    requires c.Valid() && Ready(t) && call.Shaped() && Inside(c.mapper, t.mapper)
    ensures Inside(c.mapper, Apply(c, t, call).mapper)
  {
    match call
    case VrFrame(frame, at) => VrFrameStaysInside(c, t, frame, at);
    case TickAt(now) => TickStaysInside(c, t, now);
    case _ =>
  }

  // ----- all at once -----

  ghost predicate TickOk(c: Config, ticks: seq<Record>, k: nat)
    requires c.Valid() && AllShaped(ticks) && k < |ticks|
  {
    && LeavesReleased(ticks, k) && Bumpless(c, ticks, k) && TargetsInside(c, ticks[k])
    && Continuous(c, ticks[..k + 1], 0) && Continuous(c, ticks[..k + 1], 1)
  }

  ghost predicate TicksOk(c: Config, ticks: seq<Record>)
    requires c.Valid()
  {
    AllShaped(ticks) && forall k | 0 <= k < |ticks| :: TickOk(c, ticks, k)
  }

  ghost predicate Inv(c: Config, h: History)
    requires c.Valid()
  {
    && Ready(h.now) && TicksOk(c, h.ticks) && Continues(h) && HoldImpliesRecovery(h.now)
    && InRanges(c, h.now.output.auxiliary, h.now.axes) && Inside(c.mapper, h.now.mapper)
    && ClutchInv(c, h.now.mapper, h.ticks, 0) && ClutchInv(c, h.now.mapper, h.ticks, 1)
  }

  lemma TickOkAppended(c: Config, ticks: seq<Record>, r: Record)
    requires c.Valid() && TicksOk(c, ticks) && r.Shaped() && AllShaped(ticks + [r])
    requires TickOk(c, ticks + [r], |ticks|)
    ensures TicksOk(c, ticks + [r])
  {
    forall k | 0 <= k < |ticks| + 1 ensures TickOk(c, ticks + [r], k) {
      if k < |ticks| {
        assert TickOk(c, ticks, k);
        assert (ticks + [r])[..k + 1] == ticks[..k + 1];
      }
    }
  }

  lemma TickIsOk(c: Config, h: History, now: Double)
    requires c.Valid() && Inv(c, h)
    ensures AllShaped(h.ticks + [RecordOf(c, h.now, now)])
    ensures TickOk(c, h.ticks + [RecordOf(c, h.now, now)], |h.ticks|)
  {
    var all := h.ticks + [RecordOf(c, h.now, now)];
    TickLeavesReleased(c, h, now);
    TickIsBumpless(c, h, now);
    TickStaysInside(c, h.now, now);
    TickKeepsClutch(c, h.now, h.ticks, now, 0);
    TickKeepsClutch(c, h.now, h.ticks, now, 1);
    assert all[..|h.ticks| + 1] == all;
  }

  lemma CallKeepsInv(c: Config, h: History, call: Call)
    requires c.Valid() && Inv(c, h) && call.Shaped()
    ensures Inv(c, Next(c, h, call))
  {
    CallKeepsReady(c, h.now, call);
    CallKeepsRecovery(c, h.now, call);
    CallContinues(c, h, call);
    CallKeepsRanges(c, h, call);
    CallStaysInside(c, h.now, call);
    CallKeepsClutch(c, h, call, 0);
    CallKeepsClutch(c, h, call, 1);
    if call.TickAt? {
      TickIsOk(c, h, call.now);
      TickOkAppended(c, h.ticks, RecordOf(c, h.now, call.now));
    }
  }

  lemma {:induction false} RunKeepsInv(c: Config, calls: seq<Call>)
    requires c.Valid() && AllCallsShaped(calls)
    ensures Inv(c, After(c, calls))
  {
    if calls != [] {
      RunKeepsInv(c, calls[..|calls| - 1]);
      CallKeepsInv(c, After(c, calls[..|calls| - 1]), calls[|calls| - 1]);
    }
  }

  // ----- main results -----

  /** SAFE_HOLD is left only with all inputs fresh and both grips released. */
  lemma SafeHoldIsLeftReleased(c: Config, calls: seq<Call>, k: nat)
    requires c.Valid() && AllCallsShaped(calls) && k < |After(c, calls).ticks|
    ensures var ticks := After(c, calls).ticks;
      !ticks[k].output.safeHold && (k == 0 || ticks[k - 1].output.safeHold) ==>
        ticks[k].inputsFresh && !ticks[k].anyGrip
  {
    RunKeepsInv(c, calls);
    assert TickOk(c, After(c, calls).ticks, k);
  }

  /** Gripper and lift commands never jump and never leave their ranges. */
  lemma AuxiliaryIsBumpless(c: Config, calls: seq<Call>, k: nat)
    requires c.Valid() && AllCallsShaped(calls) && k < |After(c, calls).ticks|
    ensures var ticks := After(c, calls).ticks; var o := ticks[k].output;
      && |o.auxiliary| == AUXILIARIES == |ticks[k].axes|
      && (forall i | 0 <= i < AUXILIARIES :: c.ranges[i].Contains(o.auxiliary[i]))
      && (o.auxiliaryValid && (o.safeHold || k == 0 || !ticks[k - 1].output.auxiliaryValid) ==>
            forall i | 0 <= i < AUXILIARIES :: o.auxiliary[i] == ticks[k].axes[i].value)
  {
    RunKeepsInv(c, calls);
    assert TickOk(c, After(c, calls).ticks, k);
  }

  lemma {:induction false} EngagementIsItsOwn(ticks: seq<Record>, side: Side)
    requires ticks != [] && AllShaped(ticks)
    ensures var e := Engagement(ticks, side); Engagement(ticks[..e + 1], side) == e
    decreases |ticks|
  {
    var e := Engagement(ticks, side);
    if e == |ticks| - 1 {
      assert ticks[..e + 1] == ticks;
    } else {
      var init := ticks[..|ticks| - 1];
      EngagementIsItsOwn(init, side);
      assert init[..e + 1] == ticks[..e + 1];
    }
  }

  /** Tick `k` belongs to the engagement `e`. There the target was the measured position; since then
      it has been valid throughout, and it is where the hand's displacement since `e` puts it. */
  ghost predicate FollowsFrom(c: Config, ticks: seq<Record>, side: Side, e: nat, k: nat)
    requires c.Valid() && AllShaped(ticks)
  {
    && e <= k < |ticks| && ValidSince(ticks[..k + 1], e, side) && e == Engagement(ticks[..k + 1], side)
    && ticks[e].arms[side].Pose? && ticks[e].hands[side].Pose? && ticks[k].hands[side].Pose?
    && ticks[e].output.target[side] == ticks[e].arms[side].position
    && ticks[k].output.target[side] == Expected(c, ticks[e], ticks[k], side)
  }

  lemma EngagesAtMeasured(c: Config, ticks: seq<Record>, side: Side, e: nat)
    requires c.Valid() && TicksOk(c, ticks) && e < |ticks| && Engagement(ticks[..e + 1], side) == e
    requires ticks[e].output.targetValid[side] && ticks[e].mode == Relative
    ensures ticks[e].arms[side].Pose? && ticks[e].output.target[side] == ticks[e].arms[side].position
  {
    assert TickOk(c, ticks, e);
    assert ticks[..e + 1][e] == ticks[e];
    FollowFromStart(ticks[e].arms[side].position, ticks[e].hands[side].position, c.mapper.relativeScale);
    ClampToStaysInside(ticks[e].arms[side].position, c.mapper.workspace);
  }

  lemma TickFollows(c: Config, ticks: seq<Record>, side: Side, k: nat) returns (e: nat)
    requires c.Valid() && TicksOk(c, ticks) && k < |ticks|
    requires ticks[k].output.targetValid[side] && ticks[k].mode == Relative
    ensures FollowsFrom(c, ticks, side, e, k)
  {
    assert TickOk(c, ticks, k);
    e := Engagement(ticks[..k + 1], side);
    EngagementIsItsOwn(ticks[..k + 1], side);
    assert ticks[..k + 1][..e + 1] == ticks[..e + 1];
    assert ticks[..k + 1][e] == ticks[e];
    EngagesAtMeasured(c, ticks, side, e);
  }

  /** After an invalid tick the engagement is this tick. */
  lemma EngagesAfterInvalid(c: Config, ticks: seq<Record>, side: Side, e: nat, k: nat)
    requires c.Valid() && AllShaped(ticks) && FollowsFrom(c, ticks, side, e, k)
    requires k == 0 || !ticks[k - 1].output.targetValid[side]
    ensures e == k
  {
    assert k > 0 ==> ticks[..k + 1][k - 1] == ticks[k - 1];
  }

  /** A valid target in relative mode follows the hand from the measured position at which the
      clutch engaged, whatever the path; after an invalid tick it is the measured position. */
  lemma TargetsFollowTheHand(c: Config, calls: seq<Call>, side: Side, k: nat) returns (e: nat)
    requires c.Valid() && AllCallsShaped(calls) && k < |After(c, calls).ticks|
    requires var r := After(c, calls).ticks[k];
      r.Shaped() && r.output.targetValid[side] && r.mode == Relative
    ensures var ticks := After(c, calls).ticks;
      && AllShaped(ticks) && FollowsFrom(c, ticks, side, e, k)
      && (k == 0 || !ticks[k - 1].output.targetValid[side] ==> e == k)
  {
    RunKeepsInv(c, calls);
    var ticks := After(c, calls).ticks;
    e := TickFollows(c, ticks, side, k);
    if k == 0 || !ticks[k - 1].output.targetValid[side] {
      EngagesAfterInvalid(c, ticks, side, e, k);
    }
  }

  /** In every mode the targets lie in the workspace. */
  lemma TargetsStayInWorkspace(c: Config, calls: seq<Call>, k: nat)
    requires c.Valid() && AllCallsShaped(calls) && k < |After(c, calls).ticks|
    ensures var r := After(c, calls).ticks[k]; r.Shaped() && TargetsInside(c, r)
  {
    RunKeepsInv(c, calls);
    assert TickOk(c, After(c, calls).ticks, k);
  }
}
