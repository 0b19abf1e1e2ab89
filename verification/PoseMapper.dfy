/** `pose_mapper.cpp`, the position part: hand motion while the clutch is held moves the target.
    Of an orientation only the validity test is kept. */
module PoseMapper {
  import opened Doubles

  datatype Vector = Vector(x: real, y: real, z: real)

  /** `NonFinitePose` stands for every pose with a NaN or an infinity in it; `oriented` says that
      the norm of the orientation is far enough from zero. */
  datatype Pose = Pose(position: Vector, oriented: bool) | NonFinitePose

  datatype Mode = Relative | Absolute

  /** 0 is the left hand, 1 the right. */
  type Side = i: nat | i < 2

  const ORIGIN := Vector(0.0, 0.0, 0.0)
  const DEFAULT_POSE := Pose(ORIGIN, true)

  predicate ValidPose(p: Pose) {
    p.Pose? && p.oriented
  }

  datatype Workspace = Workspace(minimum: Vector, maximum: Vector) {
    predicate Valid() {
      minimum.x <= maximum.x && minimum.y <= maximum.y && minimum.z <= maximum.z
    }

    predicate Contains(v: Vector) {
      && minimum.x <= v.x <= maximum.x && minimum.y <= v.y <= maximum.y && minimum.z <= v.z <= maximum.z
    }
  }

  /** What the constructor accepts. */
  datatype MapperConfig = MapperConfig(
    reset: seq<Vector>, workspace: Workspace, relativeScale: real, absoluteScale: real)
  {
    predicate Valid() {
      && workspace.Valid() && relativeScale >= 0.0 && absoluteScale >= 0.0
      && |reset| == 2 && workspace.Contains(reset[0]) && workspace.Contains(reset[1])
    }
  }

  datatype Hand = Hand(clutchActive: bool, handBaseline: Vector, targetBaseline: Vector, target: Vector)

  datatype Mapper = Mapper(hands: seq<Hand>, mode: Mode) {
    predicate Shaped() { |hands| == 2 }
  }

  // ----- vectors -----

  function ClampTo(v: Vector, w: Workspace): Vector {
    Vector(Clamp(v.x, w.minimum.x, w.maximum.x), Clamp(v.y, w.minimum.y, w.maximum.y),
           Clamp(v.z, w.minimum.z, w.maximum.z))
  }

  lemma ClampToStaysInside(v: Vector, w: Workspace)
    requires w.Valid()
    ensures w.Contains(ClampTo(v, w))
    ensures w.Contains(v) ==> ClampTo(v, w) == v
  {}

  /** Where the target is when the hand has moved from `from` to `to` since the target was at `base`. */
  function Follow(base: Vector, from: Vector, to: Vector, scale: real): Vector {
    Vector(base.x + (to.x - from.x) * scale, base.y + (to.y - from.y) * scale, base.z + (to.z - from.z) * scale)
  }

  lemma FollowFromStart(base: Vector, from: Vector, scale: real)
    ensures Follow(base, from, from, scale) == base
  {}

  // ----- the calls, as functions of the mapper -----

  function InitialMapper(c: MapperConfig): (n: Mapper)
    requires c.Valid()
    ensures n.Shaped()
  {
    Mapper([Hand(false, ORIGIN, c.reset[0], c.reset[0]), Hand(false, ORIGIN, c.reset[1], c.reset[1])], Relative)
  }

  function Release(m: Mapper, side: Side): (n: Mapper)
    requires m.Shaped()
    ensures n.Shaped()
  {
    m.(hands := m.hands[side := m.hands[side].(clutchActive := false)])
  }

  function SetMode(m: Mapper, mode: Mode): (n: Mapper)
    requires m.Shaped()
    ensures n.Shaped()
  {
    if mode == m.mode then m else Release(Release(m.(mode := mode), 0), 1)
  }

  function Reset(c: MapperConfig, m: Mapper, side: Side): (n: Mapper)
    requires c.Valid() && m.Shaped()
    ensures n.Shaped()
  {
    var target := ClampTo(c.reset[side], c.workspace);
    m.(hands := m.hands[side := m.hands[side].(target := target, targetBaseline := target, clutchActive := false)])
  }

  /** The clutch only engages onto a valid measured pose inside the workspace. */
  predicate CanEngage(c: MapperConfig, measured: Pose) {
    ValidPose(measured) && c.workspace.Contains(measured.position)
  }

  function UpdateHand(
    c: MapperConfig, hand: Hand, mode: Mode, side: Side, pose: Pose, grip: bool, measured: Pose): (Hand, bool)
    requires c.Valid()
  {
    if !grip || !ValidPose(pose) then (hand.(clutchActive := false), false)
    else if mode == Absolute then
      var target := Follow(c.reset[side], ORIGIN, pose.position, c.absoluteScale);
      (hand.(target := ClampTo(target, c.workspace), clutchActive := true), true)
    else if !hand.clutchActive && !CanEngage(c, measured) then (hand, false)
    else
      var engaged := if hand.clutchActive then hand
        else Hand(true, pose.position, measured.position, measured.position);
      var target := Follow(engaged.targetBaseline, engaged.handBaseline, pose.position, c.relativeScale);
      (engaged.(target := ClampTo(target, c.workspace)), true)
  }

  function Update(c: MapperConfig, m: Mapper, side: Side, pose: Pose, grip: bool, measured: Pose): (r: (Mapper, bool))
    requires c.Valid() && m.Shaped()
    ensures r.0.Shaped()
  {
    var u := UpdateHand(c, m.hands[side], m.mode, side, pose, grip, measured);
    (m.(hands := m.hands[side := u.0]), u.1)
  }

  // ----- what every call keeps -----

  ghost predicate Inside(c: MapperConfig, m: Mapper) {
    m.Shaped() && c.workspace.Contains(m.hands[0].target) && c.workspace.Contains(m.hands[1].target)
  }

  lemma UpdateStaysInside(c: MapperConfig, m: Mapper, side: Side, pose: Pose, grip: bool, measured: Pose)
    requires c.Valid() && Inside(c, m)
    ensures Inside(c, Update(c, m, side, pose, grip, measured).0)
  {
    var reset := Follow(c.reset[side], ORIGIN, if pose.Pose? then pose.position else ORIGIN, c.absoluteScale);
    ClampToStaysInside(reset, c.workspace);
    var u := UpdateHand(c, m.hands[side], m.mode, side, pose, grip, measured);
    if u.1 && m.mode == Relative {
      ClampToStaysInside(Follow(u.0.targetBaseline, u.0.handBaseline, pose.position, c.relativeScale), c.workspace);
    }
  }

  lemma ResetStaysInside(c: MapperConfig, m: Mapper, side: Side)
    requires c.Valid() && Inside(c, m)
    ensures Inside(c, Reset(c, m, side))
  {
    ClampToStaysInside(c.reset[side], c.workspace);
  }

  /** Engaging the clutch does not move the target: it starts at the measured position. */
  lemma EngagingStartsAtMeasured(c: MapperConfig, m: Mapper, side: Side, pose: Pose, grip: bool, measured: Pose)
    requires c.Valid() && m.Shaped() && m.mode == Relative && !m.hands[side].clutchActive
    requires Update(c, m, side, pose, grip, measured).1
    ensures measured.Pose? && Update(c, m, side, pose, grip, measured).0.hands[side].target == measured.position
  {
    FollowFromStart(measured.position, pose.position, c.relativeScale);
    ClampToStaysInside(measured.position, c.workspace);
  }

  // ----- the class -----

  class HandPoseMapper {
    const config: MapperConfig
    var hands: seq<Hand>
    var mode: Mode

    ghost predicate Valid()
      reads this
    {
      config.Valid() && |hands| == 2
    }

    ghost function Model(): (m: Mapper)
      requires Valid()
      reads this
      ensures m.Shaped()
    {
      Mapper(hands, mode)
    }

    constructor (c: MapperConfig)
      requires c.Valid()
      ensures Valid() && config == c && Model() == InitialMapper(c)
    {
      config := c;
      hands := [Hand(false, ORIGIN, c.reset[0], c.reset[0]), Hand(false, ORIGIN, c.reset[1], c.reset[1])];
      mode := Relative;
    }

    method ReleaseClutch(side: Side)
      requires Valid()
      modifies this`hands
      ensures Valid() && Model() == Release(old(Model()), side)
    {
      hands := hands[side := hands[side].(clutchActive := false)];
    }

    method SetControlMode(next: Mode)
      requires Valid()
      modifies this
      ensures Valid() && Model() == SetMode(old(Model()), next)
    {
      if next == mode {
        return;
      }
      mode := next;
      ReleaseClutch(0);
      ReleaseClutch(1);
    }

    method ResetSide(side: Side)
      requires Valid()
      modifies this`hands
      ensures Valid() && Model() == Reset(config, old(Model()), side)
    {
      var target := ClampTo(config.reset[side], config.workspace);
      hands := hands[side := hands[side].(target := target, targetBaseline := target, clutchActive := false)];
    }

    method UpdateSide(side: Side, pose: Pose, grip: bool, measured: Pose) returns (updated: bool)
      requires Valid()
      modifies this`hands
      ensures Valid() && (Model(), updated) == Update(config, old(Model()), side, pose, grip, measured)
    {
      var hand := hands[side];
      if !grip || !ValidPose(pose) {
        hands := hands[side := hand.(clutchActive := false)];
        return false;
      }
      if mode == Absolute {
        var reset := config.reset[side];
        var target := Follow(reset, ORIGIN, pose.position, config.absoluteScale);
        hands := hands[side := hand.(target := ClampTo(target, config.workspace), clutchActive := true)];
        return true;
      }
      if !hand.clutchActive {
        if !CanEngage(config, measured) {
          assert hands[side := hand] == hands;
          return false;
        }
        hand := Hand(true, pose.position, measured.position, measured.position);
      }
      var target := Follow(hand.targetBaseline, hand.handBaseline, pose.position, config.relativeScale);
      hands := hands[side := hand.(target := ClampTo(target, config.workspace))];
      return true;
    }
  }
}
