/** Re-clutch continuity: in relative mode a target starts at the measured position, and from there
    depends only on where the hand is, not on how it got there. */
module Reclutch {
  import opened Doubles
  import opened PoseMapper
  import opened TeleopModel
  import opened TeleopSafety

  // ----- everything but a target update keeps a clutch as it is, or opens it -----

  ghost predicate Loosens(m: Mapper, n: Mapper) {
    && m.Shaped() && n.Shaped()
    && forall side: Side :: n.hands[side].clutchActive ==> n.hands[side] == m.hands[side] && n.mode == m.mode
  }

  lemma ReleaseLoosens(m: Mapper, side: Side)
    requires m.Shaped()
    ensures Loosens(m, Release(m, side))
  {}

  lemma ReleaseBothLoosens(m: Mapper)
    requires m.Shaped()
    ensures Loosens(m, ReleaseBoth(m)) && !ReleaseBoth(m).hands[0].clutchActive && !ReleaseBoth(m).hands[1].clutchActive
  {}

  lemma FireLoosens(c: Config, m: Mapper, f: Fired)
    requires c.Valid() && m.Shaped()
    ensures Loosens(m, FireMapper(c, m, f))
  {}

  lemma VrFrameLoosens(t: Teleop, f: Frame, at: Double)
    requires t.Shaped() && f.Shaped()
    ensures Loosens(t.mapper, UpdateVrFrame(t, f, at).mapper)
  {
    ReleaseBothLoosens(t.mapper);
    ReleaseLoosens(t.mapper, 0);
    ReleaseLoosens(t.mapper, 1);
    ReleaseLoosens(Release(t.mapper, 0), 1);
  }

  lemma ButtonsLoosen(c: Config, t: Teleop, now: real)
    requires c.Valid() && t.Shaped()
    ensures Loosens(t.mapper, MapperAtUpdate(c, t, now))
  {
    var s := LeaveSafeHold(c, t);
    FireLoosens(c, s.mapper, UpdatePresses(c, s.buttons, s.vr, now).1);
  }

  // ----- what a tick does to one hand -----

  lemma UpdateTargetsHand(c: Config, t: Teleop, now: Double, side: Side)
    requires c.Valid() && t.Shaped()
    ensures var r := UpdateTargets(c, t, now); var hand := r.0.hands[side];
      && r.0.mode == t.mapper.mode
      && if ArmFresh(c, t.arms, now, side) then
           (hand, r.1[side]) == UpdateHand(c.mapper, t.mapper.hands[side], t.mapper.mode, side, t.vr.hands[side].value,
                                           t.vr.joys[side].value.grip, t.arms[side].value)
         else !hand.clutchActive && !r.1[side]
  {}

  /** The hand and the verdict of this tick, as `UpdateHand` gives them; `grip` is that joystick's. */
  ghost predicate Moved(c: Config, before: Hand, mode: Mode, side: Side, grip: bool, after: Hand, r: Record)
    requires c.Valid() && r.Shaped()
  {
    (after, r.output.targetValid[side]) == UpdateHand(c.mapper, before, mode, side, r.hands[side], grip, r.arms[side])
  }

  lemma HoldTickHand(c: Config, t: Teleop, now: Double, side: Side)
    requires c.Valid() && Ready(t) && MustHold(c, t, now)
    ensures !Tick(c, t, now).mapper.hands[side].clutchActive
    ensures !RecordOf(c, t, now).output.targetValid[side]
  {
    assert MustHold(c, Started(c, t, now), now);
    ReleaseBothLoosens(t.mapper);
  }

  lemma RunTickMapper(c: Config, t: Teleop, now: Double)
    requires c.Valid() && Ready(t) && !MustHold(c, t, now)
    ensures var s := ProcessButtons(c, LeaveSafeHold(c, Started(c, t, now)), now.v); var u := Tick(c, t, now);
      && s.Shaped() && s.mapper == MapperAtUpdate(c, t, now.v) && s.vr == t.vr && s.arms == t.arms
      && u.mapper == UpdateTargets(c, s, now).0
      && (forall side: Side :: u.output.target[side] == u.mapper.hands[side].target)
      && (forall side: Side :: u.output.targetValid[side] ==
            (ArmFresh(c, t.arms, now, side) && UpdateTargets(c, s, now).1[side]))
  {
    assert !MustHold(c, Started(c, t, now), now);
  }

  lemma RunTickHand(c: Config, t: Teleop, now: Double, side: Side)
    requires c.Valid() && Ready(t) && !MustHold(c, t, now)
    ensures var m := MapperAtUpdate(c, t, now.v); var u := Tick(c, t, now); var r := RecordOf(c, t, now);
      && r.mode == u.mapper.mode == m.mode && r.held[side] == m.hands[side].clutchActive
      && r.output.target[side] == u.mapper.hands[side].target
      && if ArmFresh(c, t.arms, now, side)
         then Moved(c, m.hands[side], m.mode, side, t.vr.joys[side].value.grip, u.mapper.hands[side], r)
         else !u.mapper.hands[side].clutchActive && !r.output.targetValid[side]
  {
    RunTickMapper(c, t, now);
    UpdateTargetsHand(c, ProcessButtons(c, LeaveSafeHold(c, Started(c, t, now)), now.v), now, side);
  }

  // ----- the engagement a tick belongs to -----

  /** The last tick at which the clutch was not already held. */
  ghost function Engagement(ticks: seq<Record>, side: Side): (e: nat)
    requires ticks != [] && AllShaped(ticks)
    ensures e < |ticks|
  {
    if ticks[|ticks| - 1].held[side] && |ticks| > 1 then Engagement(ticks[..|ticks| - 1], side) else |ticks| - 1
  }

  ghost predicate AllShaped(ticks: seq<Record>) {
    forall k | 0 <= k < |ticks| :: ticks[k].Shaped()
  }

  /** From tick `e` on the target was valid, in relative mode. */
  ghost predicate ValidSince(ticks: seq<Record>, e: nat, side: Side)
    requires AllShaped(ticks)
  {
    forall k | e <= k < |ticks| :: ticks[k].output.targetValid[side] && ticks[k].mode == Relative
  }

  /** The clutch took its baselines from tick `e`. */
  ghost predicate TakenAt(c: Config, r: Record, side: Side, hand: Hand)
    requires c.Valid() && r.Shaped()
  {
    && r.arms[side].Pose? && c.mapper.workspace.Contains(r.arms[side].position)
    && r.hands[side].Pose?
    && hand.targetBaseline == r.arms[side].position && hand.handBaseline == r.hands[side].position
  }

  /** Where tick `r` must put the target when the clutch engaged at tick `e`. */
  ghost function Expected(c: Config, e: Record, r: Record, side: Side): Vector
    requires c.Valid() && e.Shaped() && r.Shaped()
    requires e.arms[side].Pose? && e.hands[side].Pose? && r.hands[side].Pose?
  {
    ClampTo(Follow(e.arms[side].position, e.hands[side].position, r.hands[side].position, c.mapper.relativeScale),
            c.mapper.workspace)
  }

  /** What the last tick satisfies. */
  ghost predicate Continuous(c: Config, ticks: seq<Record>, side: Side)
    requires c.Valid() && AllShaped(ticks) && ticks != []
  {
    var r := ticks[|ticks| - 1];
    r.output.targetValid[side] && r.mode == Relative ==>
      var e := Engagement(ticks, side);
      && ValidSince(ticks, e, side)
      && ticks[e].arms[side].Pose? && ticks[e].hands[side].Pose? && r.hands[side].Pose?
      && c.mapper.workspace.Contains(ticks[e].arms[side].position)
      && r.output.target[side] == Expected(c, ticks[e], r, side)
  }

  ghost predicate ClutchInv(c: Config, m: Mapper, ticks: seq<Record>, side: Side)
    requires c.Valid() && AllShaped(ticks) && m.Shaped()
  {
    var hand := m.hands[side];
    hand.clutchActive ==>
      && ticks != []
      && var last := ticks[|ticks| - 1];
         && last.output.targetValid[side] && last.mode == m.mode
         && (m.mode == Relative ==>
               var e := Engagement(ticks, side);
               ValidSince(ticks, e, side) && TakenAt(c, ticks[e], side, hand))
  }

  lemma LoosenedKeepsClutch(c: Config, m: Mapper, n: Mapper, ticks: seq<Record>, side: Side)
    requires c.Valid() && AllShaped(ticks) && m.Shaped() && ClutchInv(c, m, ticks, side) && Loosens(m, n)
    ensures ClutchInv(c, n, ticks, side)
  {}

  lemma EngagementAppended(ticks: seq<Record>, r: Record, side: Side)
    requires AllShaped(ticks) && r.Shaped()
    ensures AllShaped(ticks + [r])
    ensures Engagement(ticks + [r], side) ==
      if r.held[side] && ticks != [] then Engagement(ticks, side) else |ticks|
  {
    assert (ticks + [r])[..|ticks|] == ticks;
  }

  /** A tick that moves a hand whose clutch was already held. */
  lemma HeldTick(c: Config, ticks: seq<Record>, r: Record, side: Side, grip: bool, before: Hand, after: Hand)
    requires c.Valid() && AllShaped(ticks) && r.Shaped() && ticks != [] && r.held[side]
    requires before.clutchActive && r.mode == Relative && Moved(c, before, Relative, side, grip, after, r)
    requires r.output.target[side] == after.target && r.output.targetValid[side]
    requires var e := Engagement(ticks, side); ValidSince(ticks, e, side) && TakenAt(c, ticks[e], side, before)
    ensures AllShaped(ticks + [r]) && Continuous(c, ticks + [r], side)
    ensures var e := Engagement(ticks + [r], side);
      ValidSince(ticks + [r], e, side) && TakenAt(c, (ticks + [r])[e], side, after)
  {
    EngagementAppended(ticks, r, side);
  }

  /** A tick that engages the clutch. */
  lemma EngagingTick(c: Config, ticks: seq<Record>, r: Record, side: Side, grip: bool, before: Hand, after: Hand)
    requires c.Valid() && AllShaped(ticks) && r.Shaped() && !r.held[side]
    requires !before.clutchActive && r.mode == Relative && Moved(c, before, Relative, side, grip, after, r)
    requires r.output.target[side] == after.target && r.output.targetValid[side]
    ensures AllShaped(ticks + [r]) && Continuous(c, ticks + [r], side)
    ensures var e := Engagement(ticks + [r], side);
      ValidSince(ticks + [r], e, side) && TakenAt(c, (ticks + [r])[e], side, after)
  {
    EngagementAppended(ticks, r, side);
  }

  lemma UpdateKeepsClutch(
    c: Config, ticks: seq<Record>, r: Record, side: Side, grip: bool, m: Mapper, n: Mapper, live: bool)
    requires c.Valid() && AllShaped(ticks) && r.Shaped() && m.Shaped() && n.Shaped() && ClutchInv(c, m, ticks, side)
    requires r.mode == n.mode == m.mode && r.held[side] == m.hands[side].clutchActive
    requires r.output.target[side] == n.hands[side].target
    requires
      if live then Moved(c, m.hands[side], m.mode, side, grip, n.hands[side], r)
      else !n.hands[side].clutchActive && !r.output.targetValid[side]
    ensures AllShaped(ticks + [r]) && ClutchInv(c, n, ticks + [r], side) && Continuous(c, ticks + [r], side)
  {
    EngagementAppended(ticks, r, side);
    if r.output.targetValid[side] && r.mode == Relative {
      if m.hands[side].clutchActive {
        HeldTick(c, ticks, r, side, grip, m.hands[side], n.hands[side]);
      } else {
        EngagingTick(c, ticks, r, side, grip, m.hands[side], n.hands[side]);
      }
    }
  }

  lemma TickKeepsClutch(c: Config, t: Teleop, ticks: seq<Record>, now: Double, side: Side)
    requires c.Valid() && Ready(t) && AllShaped(ticks) && ClutchInv(c, t.mapper, ticks, side)
    ensures var all := ticks + [RecordOf(c, t, now)];
      AllShaped(all) && ClutchInv(c, Tick(c, t, now).mapper, all, side) && Continuous(c, all, side)
  {
    var r, u := RecordOf(c, t, now), Tick(c, t, now);
    EngagementAppended(ticks, r, side);
    if MustHold(c, t, now) {
      HoldTickHand(c, t, now, side);
    } else {
      var m := MapperAtUpdate(c, t, now.v);
      ButtonsLoosen(c, t, now.v);
      LoosenedKeepsClutch(c, t.mapper, m, ticks, side);
      RunTickHand(c, t, now, side);
      UpdateKeepsClutch(c, ticks, r, side, t.vr.joys[side].value.grip, m, u.mapper, ArmFresh(c, t.arms, now, side));
    }
  }

  lemma CallKeepsClutch(c: Config, h: History, call: Call, side: Side)
    requires c.Valid() && Ready(h.now) && call.Shaped() && AllShaped(h.ticks)
    requires ClutchInv(c, h.now.mapper, h.ticks, side)
    ensures var n := Next(c, h, call); AllShaped(n.ticks) && ClutchInv(c, n.now.mapper, n.ticks, side)
  {
    match call
    case TickAt(now) => TickKeepsClutch(c, h.now, h.ticks, now, side);
    case VrFrame(frame, at) =>
      VrFrameLoosens(h.now, frame, at);
      LoosenedKeepsClutch(c, h.now.mapper, UpdateVrFrame(h.now, frame, at).mapper, h.ticks, side);
    case ClearVrInput =>
      ReleaseBothLoosens(h.now.mapper);
      LoosenedKeepsClutch(c, h.now.mapper, ClearInput(h.now).mapper, h.ticks, side);
    case _ =>
  }
}
