/** What the encoded fields mean on the robot's side: positions in the units of the wire, and maximum
    velocities that let every joint reach the position it is sent to in time. */
module MotorCommands {
  import opened Crc16
  import opened Doubles
  import opened CommandSafety
  import opened StandardMapping

  // ----- units -----

  /** A gripper slot is the opening as a share of the travel. */
  predicate IsShare(slot: Double, opening: real, travel: real) {
    && slot.Finite?
    && (opening <= 0.0 ==> slot.v == 0.0)
    && (opening >= travel ==> slot.v == 1.0)
    && (0.0 <= opening <= travel ==> slot.v * travel == opening)
  }

  lemma GripIsShare(value: Double, travel: Double)
    requires value.Finite? && travel.Finite? && travel.v > 0.0
    ensures IsShare(Grip(value, travel), value.v, travel.v)
  {
    var q := value.v / travel.v;
    assert q * travel.v == value.v;
    if value.v <= 0.0 {
      assert q <= 0.0;
    }
    if value.v >= travel.v {
      assert (q - 1.0) * travel.v >= 0.0;
    }
    if 0.0 <= value.v <= travel.v {
      assert (1.0 - q) * travel.v >= 0.0;
    }
  }

  /** Lift in millimetres, arms in the motors' angles, grippers as shares, head angles reversed; with
      power off nothing drives the base. */
  lemma PayloadInWireUnits(command: Command, m: Mapping, power: bool, speeds: seq<Speed>, p: Payload)
    requires CommandOk(command) && MappingOk(m) && (speeds == [] || |speeds| == JOINTS)
    requires Encodes(command, m, power, speeds, p)
    ensures p.flag == if power then 0x3D else 0x00
    ensures p.pelvisHeight == Finite(command.position[0].v * 1000.0)
    ensures p.pelvisVelocity == if power then m.pelvisVelocity else Finite(0.0)
    ensures forall j | 0 <= j < 7 ::
      && p.left[m.left.motor[j]] == Finite(m.left.direction[j].v * command.position[1 + j].v + m.left.zero[j].v)
      && p.right[m.right.motor[j]] == Finite(m.right.direction[j].v * command.position[8 + j].v + m.right.zero[j].v)
    ensures IsShare(p.left[7], command.position[15].v, m.travel.v)
    ensures IsShare(p.right[7], command.position[16].v, m.travel.v)
    ensures p.headPitch == Finite(-command.head[0].v) && p.headYaw == Finite(-command.head[1].v)
    ensures p.headRoll == Finite(-command.head[2].v)
    ensures forall i | 0 <= i < 3 ::
      && p.base[i] == (if power then command.baseVelocity[i] else Finite(0.0))
      && p.acceleration[i] == (if power then m.acceleration[i] else Finite(0.0))
  {
    GripIsShare(command.position[15], m.travel);
    GripIsShare(command.position[16], m.travel);
    forall j | 0 <= j < 7
      ensures p.left[m.left.motor[j]] == Finite(m.left.direction[j].v * command.position[1 + j].v + m.left.zero[j].v)
      ensures p.right[m.right.motor[j]] == Finite(m.right.direction[j].v * command.position[8 + j].v + m.right.zero[j].v)
    {
      assert p.left[m.left.motor[j]] == Raw(m.left, j, command.position[LEFT..RIGHT][j]);
      assert p.right[m.right.motor[j]] == Raw(m.right, j, command.position[RIGHT..LEFT_GRIPPER][j]);
    }
  }

  /** Slot and joint value belong together: the motor's angle is the joint's, turned and shifted. */
  predicate Turned(raw: Double, value: Double, direction: Double, zero: real) {
    raw.Finite? && value.Finite? && direction.Finite? && raw.v == direction.v * value.v + zero
  }

  lemma TurnBack(direction: real, raw: real, zero: real)
    requires direction == 1.0 || direction == -1.0
    ensures raw == direction * (direction * (raw - zero)) + zero
  {}

  ghost predicate ArmInJointUnits(arm: Arm, a: Arms, from: nat, s: State)
    requires ArmOk(arm) && a.Shaped() && StateShaped(s) && from + 7 <= 17
  {
    forall j | 0 <= j < 7 ::
      && Turned(a.position[arm.motor[j]], s.position[from + j], arm.direction[j], arm.zero[j].v)
      && Turned(a.velocity[arm.motor[j]], s.velocity[from + j], arm.direction[j], 0.0)
      && Turned(a.torque[arm.motor[j]], s.effort[from + j], arm.direction[j], 0.0)
  }

  ghost predicate GripperInJointUnits(travel: real, a: Arms, at: nat, s: State)
    requires a.Shaped() && StateShaped(s) && at < 17
  {
    && a.position[7].Finite? && s.position[at] == Finite(travel * a.position[7].v)
    && a.velocity[7].Finite? && s.velocity[at] == Finite(travel * a.velocity[7].v)
    && s.effort[at] == a.torque[7]
  }

  lemma ArmIsInJointUnits(arm: Arm, a: Arms, from: nat, s: State)
    requires ArmOk(arm) && a.Shaped() && StateShaped(s) && from + 7 <= 17 && StateFinite(s)
    requires ArmDecodes(arm, a, from, s)
    ensures ArmInJointUnits(arm, a, from, s)
  {
    forall j | 0 <= j < 7
      ensures Turned(a.position[arm.motor[j]], s.position[from + j], arm.direction[j], arm.zero[j].v)
      ensures Turned(a.velocity[arm.motor[j]], s.velocity[from + j], arm.direction[j], 0.0)
      ensures Turned(a.torque[arm.motor[j]], s.effort[from + j], arm.direction[j], 0.0)
    {
      assert s.position[from..from + ARM_JOINTS][j] == s.position[from + j];
      assert s.velocity[from..from + ARM_JOINTS][j] == s.velocity[from + j];
      assert s.effort[from..from + ARM_JOINTS][j] == s.effort[from + j];
      TurnBack(arm.direction[j].v, a.position[arm.motor[j]].v, arm.zero[j].v);
      TurnBack(arm.direction[j].v, a.velocity[arm.motor[j]].v, 0.0);
      TurnBack(arm.direction[j].v, a.torque[arm.motor[j]].v, 0.0);
    }
  }

  /** A decoded state: lift in metres, every joint out of its own slot, grippers in metres of travel. */
  lemma StateInJointUnits(f: Feedback, m: Mapping, s: State)
    requires f.Shaped() && MappingOk(m) && Decodes(f, m, s) && StateFinite(s)
    ensures f.pelvisHeight == Finite(1000.0 * s.position[0].v) && f.pelvisVelocity == Finite(1000.0 * s.velocity[0].v)
    ensures s.effort[0] == Finite(0.0)
    ensures ArmInJointUnits(m.left, f.left, 1, s) && ArmInJointUnits(m.right, f.right, 8, s)
    ensures GripperInJointUnits(m.travel.v, f.left, 15, s) && GripperInJointUnits(m.travel.v, f.right, 16, s)
  {
    ArmIsInJointUnits(m.left, f.left, 1, s);
    ArmIsInJointUnits(m.right, f.right, 8, s);
  }

  // ----- maximum velocities -----

  /** The size of a speed, cut off at the limit. */
  predicate IsCutOff(slot: Double, speed: real, limit: real) {
    slot == Finite(if Abs(speed) <= limit then Abs(speed) else limit)
  }

  /** A known arm speed is sent as its size up to the configured limit. Without a usable one the limit
      is sent, or zero with power off. */
  lemma ArmSpeedsAreSent(m: Mapping, arm: Arm, power: bool, speeds: seq<Speed>, from: nat, gripper: nat, slots: seq<Double>)
    requires MappingOk(m) && ArmOk(arm) && (speeds == [] || |speeds| == JOINTS)
    requires from + ARM_JOINTS <= JOINTS && gripper < JOINTS
    requires SpeedsEncode(m, arm, power, speeds, from, gripper, slots)
    ensures forall j | 0 <= j < 7 ::
      if speeds != [] && speeds[from + j].Known?
      then IsCutOff(slots[arm.motor[j]], speeds[from + j].v, m.armVelocity.v)
      else slots[arm.motor[j]] == if power then m.armVelocity else Finite(0.0)
  {
    forall j | 0 <= j < 7
      ensures if speeds != [] && speeds[from + j].Known?
        then IsCutOff(slots[arm.motor[j]], speeds[from + j].v, m.armVelocity.v)
        else slots[arm.motor[j]] == if power then m.armVelocity else Finite(0.0)
    {
      assert slots[arm.motor[j]] == ArmSpeed(m, power, speeds, from + j);
    }
  }

  /** A gripper's slot times its travel is the size of its speed up to its limit. */
  lemma GripperSpeedIsSent(m: Mapping, arm: Arm, power: bool, speeds: seq<Speed>, from: nat, gripper: nat, slots: seq<Double>)
    requires MappingOk(m) && ArmOk(arm) && (speeds == [] || |speeds| == JOINTS)
    requires from + ARM_JOINTS <= JOINTS && gripper < JOINTS
    requires SpeedsEncode(m, arm, power, speeds, from, gripper, slots)
    ensures var slot := slots[7];
      if speeds == [] then slot == if power then m.gripperVelocity else Finite(0.0)
      else match speeds[gripper]
        case Known(v) =>
          slot.Finite? && IsCutOff(Finite(slot.v * m.travel.v), v, m.gripperVelocity.v * m.travel.v)
        case Infinite => slot == m.gripperVelocity
        case NotANumber => slot.NonFinite?
  {
    if speeds != [] && speeds[gripper].Known? {
      var v := Abs(speeds[gripper].v);
      SharesCompare(v, m.travel.v, m.gripperVelocity.v);
    }
  }

  lemma SharesCompare(v: real, travel: real, limit: real)
    requires v >= 0.0 && travel > 0.0 && limit > 0.0
    ensures (v / travel) * travel == v && v / travel >= 0.0
    ensures v / travel <= limit <==> v <= limit * travel
  {
    var q := v / travel;
    assert q * travel == v;
    if q <= limit {
      assert (limit - q) * travel >= 0.0;
    } else {
      assert (q - limit) * travel > 0.0;
    }
  }

  // ----- the velocities `write` passes -----

  /** `joint_velocities`: the way to each position over the time since the last frame. */
  function JointVelocities(frame: Command, previous: Command, elapsed: real): (speeds: seq<Speed>)
    requires frame.Shaped() && previous.Shaped() && AllFinite(frame.position) && AllFinite(previous.position)
    requires elapsed > 0.0
    ensures |speeds| == JOINTS
  {
    seq(JOINTS, j requires 0 <= j < JOINTS => Known((frame.position[j].v - previous.position[j].v) / elapsed))
  }

  /** At this maximum velocity the way takes no longer than `time`, unless the limit forbids it. */
  predicate Reaches(velocity: real, way: real, time: real, limit: real) {
    velocity * time == if Abs(way) <= limit * time then Abs(way) else limit * time
  }

  lemma CutOffReaches(slot: Double, way: real, time: real, limit: real)
    requires time > 0.0 && IsCutOff(slot, way / time, limit)
    ensures slot.Finite? && Reaches(slot.v, way, time, limit)
  {
    var speed := way / time;
    assert speed * time == way;
    assert Abs(speed) * time == Abs(way);
    if Abs(speed) <= limit {
      assert (limit - Abs(speed)) * time >= 0.0;
    } else {
      assert (Abs(speed) - limit) * time > 0.0;
    }
  }

  lemma JointVelocityReaches(
    m: Mapping, arm: Arm, frame: Command, previous: Command, time: real, from: nat, gripper: nat, slots: seq<Double>,
    j: nat)
    requires MappingOk(m) && ArmOk(arm) && frame.Shaped() && previous.Shaped() && time > 0.0 && j < 7
    requires AllFinite(frame.position) && AllFinite(previous.position)
    requires from + ARM_JOINTS <= JOINTS && gripper < JOINTS
    requires SpeedsEncode(m, arm, true, JointVelocities(frame, previous, time), from, gripper, slots)
    ensures slots[arm.motor[j]].Finite?
    ensures Reaches(slots[arm.motor[j]].v, frame.position[from + j].v - previous.position[from + j].v, time, m.armVelocity.v)
  {
    ArmSpeedsAreSent(m, arm, true, JointVelocities(frame, previous, time), from, gripper, slots);
    assert JointVelocities(frame, previous, time)[from + j].Known?;
    CutOffReaches(slots[arm.motor[j]], frame.position[from + j].v - previous.position[from + j].v, time, m.armVelocity.v);
  }

  lemma GripperVelocityReaches(
    m: Mapping, arm: Arm, frame: Command, previous: Command, time: real, from: nat, gripper: nat, slots: seq<Double>)
    requires MappingOk(m) && ArmOk(arm) && frame.Shaped() && previous.Shaped() && time > 0.0
    requires AllFinite(frame.position) && AllFinite(previous.position)
    requires from + ARM_JOINTS <= JOINTS && gripper < JOINTS
    requires SpeedsEncode(m, arm, true, JointVelocities(frame, previous, time), from, gripper, slots)
    ensures slots[7].Finite? && Reaches(slots[7].v * m.travel.v, frame.position[gripper].v - previous.position[gripper].v,
                                        time, m.gripperVelocity.v * m.travel.v)
  {
    GripperSpeedIsSent(m, arm, true, JointVelocities(frame, previous, time), from, gripper, slots);
    CutOffReaches(Finite(slots[7].v * m.travel.v), frame.position[gripper].v - previous.position[gripper].v,
                  time, m.gripperVelocity.v * m.travel.v);
  }

  /** The velocities sent along with a frame let every joint reach its position within the time that has
      passed since the frame before, as far as the configured limits allow. */
  lemma VelocitiesCoverTheWay(
    m: Mapping, arm: Arm, frame: Command, previous: Command, time: real, from: nat, gripper: nat, slots: seq<Double>)
    requires MappingOk(m) && ArmOk(arm) && frame.Shaped() && previous.Shaped() && time > 0.0
    requires AllFinite(frame.position) && AllFinite(previous.position)
    requires from + ARM_JOINTS <= JOINTS && gripper < JOINTS
    requires SpeedsEncode(m, arm, true, JointVelocities(frame, previous, time), from, gripper, slots)
    ensures forall j | 0 <= j < 7 ::
      && slots[arm.motor[j]].Finite?
      && Reaches(slots[arm.motor[j]].v, frame.position[from + j].v - previous.position[from + j].v, time, m.armVelocity.v)
    ensures slots[7].Finite? && Reaches(slots[7].v * m.travel.v, frame.position[gripper].v - previous.position[gripper].v,
                                        time, m.gripperVelocity.v * m.travel.v)
  {
    forall j | 0 <= j < 7
      ensures slots[arm.motor[j]].Finite?
      ensures Reaches(slots[arm.motor[j]].v, frame.position[from + j].v - previous.position[from + j].v, time, m.armVelocity.v)
    {
      JointVelocityReaches(m, arm, frame, previous, time, from, gripper, slots, j);
    }
    GripperVelocityReaches(m, arm, frame, previous, time, from, gripper, slots);
  }

  /** The limits that `update_joint_velocity_limits` derives from the mapping. */
  predicate Derived(limits: Limits, m: Mapping)
    requires limits.Shaped() && MappingOk(m)
  {
    && (forall j | 1 <= j < 15 :: limits.velocity[j] == m.armVelocity)
    && limits.velocity[15] == Finite(m.gripperVelocity.v * m.travel.v) == limits.velocity[16]
  }

  /** At this maximum velocity the way takes exactly `time`. */
  predicate Covers(velocity: real, way: real, time: real) {
    velocity * time == Abs(way)
  }

  lemma ReachesInFull(velocity: real, way: real, time: real, limit: real)
    requires Reaches(velocity, way, time, limit) && Abs(way) <= limit * time
    ensures Covers(velocity, way, time)
  {}

  lemma JointIsReached(
    m: Mapping, arm: Arm, frame: Command, previous: Command, time: real, from: nat, gripper: nat, slots: seq<Double>,
    j: nat)
    requires MappingOk(m) && ArmOk(arm) && frame.Shaped() && previous.Shaped() && time > 0.0 && j < 7
    requires AllFinite(frame.position) && AllFinite(previous.position)
    requires from + ARM_JOINTS <= JOINTS && gripper < JOINTS
    requires Abs(frame.position[from + j].v - previous.position[from + j].v) <= m.armVelocity.v * time
    requires SpeedsEncode(m, arm, true, JointVelocities(frame, previous, time), from, gripper, slots)
    ensures slots[arm.motor[j]].Finite?
    ensures Covers(slots[arm.motor[j]].v, frame.position[from + j].v - previous.position[from + j].v, time)
  {
    JointVelocityReaches(m, arm, frame, previous, time, from, gripper, slots, j);
    ReachesInFull(slots[arm.motor[j]].v, frame.position[from + j].v - previous.position[from + j].v, time, m.armVelocity.v);
  }

  lemma GripperIsReached(
    m: Mapping, arm: Arm, frame: Command, previous: Command, time: real, from: nat, gripper: nat, slots: seq<Double>,
    limit: real)
    requires MappingOk(m) && ArmOk(arm) && frame.Shaped() && previous.Shaped() && time > 0.0
    requires AllFinite(frame.position) && AllFinite(previous.position)
    requires from + ARM_JOINTS <= JOINTS && gripper < JOINTS
    requires limit == m.gripperVelocity.v * m.travel.v
    requires Abs(frame.position[gripper].v - previous.position[gripper].v) <= limit * time
    requires SpeedsEncode(m, arm, true, JointVelocities(frame, previous, time), from, gripper, slots)
    ensures slots[7].Finite?
    ensures Covers(slots[7].v * m.travel.v, frame.position[gripper].v - previous.position[gripper].v, time)
  {
    GripperVelocityReaches(m, arm, frame, previous, time, from, gripper, slots);
    ReachesInFull(slots[7].v * m.travel.v, frame.position[gripper].v - previous.position[gripper].v, time, limit);
  }

  /** The step limit keeps every way within velocity times time. */
  lemma LimitedWay(
    limits: Limits, command: Command, previous: Command, time: real, frame: Command, j: nat, limit: real)
    requires command.Shaped() && previous.Shaped() && limits.Shaped() && j < JOINTS
    requires time > 0.0 && StepLimitOk(command, previous, limits, Finite(time))
    requires frame == LimitedCommand(command, previous, limits, time) && limits.velocity[j] == Finite(limit)
    ensures frame.Shaped() && AllFinite(frame.position) && AllFinite(previous.position)
    ensures Abs(frame.position[j].v - previous.position[j].v) <= limit * time
  {
    LimitedStepStaysBetween(command.position[j], previous.position[j], limits.velocity[j], time);
  }

  /** A frame that the step limit let through is reached in full: the velocity of each arm slot, times the
      time since the frame before, is exactly the way to go. */
  lemma LimitedJointIsReached(
    m: Mapping, arm: Arm, limits: Limits, command: Command, previous: Command, time: real, frame: Command,
    from: nat, gripper: nat, slots: seq<Double>, j: nat)
    requires MappingOk(m) && ArmOk(arm) && limits.Shaped() && Derived(limits, m) && command.Shaped() && previous.Shaped()
    requires time > 0.0 && StepLimitOk(command, previous, limits, Finite(time)) && j < 7
    requires frame == LimitedCommand(command, previous, limits, time) && (from == 1 || from == 8) && gripper < JOINTS
    requires SpeedsEncode(m, arm, true, JointVelocities(frame, previous, time), from, gripper, slots)
    ensures slots[arm.motor[j]].Finite?
    ensures Covers(slots[arm.motor[j]].v, frame.position[from + j].v - previous.position[from + j].v, time)
  {
    LimitedWay(limits, command, previous, time, frame, from + j, m.armVelocity.v);
    JointIsReached(m, arm, frame, previous, time, from, gripper, slots, j);
  }

  /** And so is each gripper's. */
  lemma LimitedGripperIsReached(
    m: Mapping, arm: Arm, limits: Limits, command: Command, previous: Command, time: real, frame: Command,
    from: nat, gripper: nat, slots: seq<Double>, limit: real)
    requires MappingOk(m) && ArmOk(arm) && limits.Shaped() && command.Shaped() && previous.Shaped()
    requires time > 0.0 && StepLimitOk(command, previous, limits, Finite(time))
    requires frame == LimitedCommand(command, previous, limits, time)
    requires from + ARM_JOINTS <= JOINTS && gripper < JOINTS
    requires limits.velocity[gripper] == Finite(limit) && limit == m.gripperVelocity.v * m.travel.v
    requires SpeedsEncode(m, arm, true, JointVelocities(frame, previous, time), from, gripper, slots)
    ensures slots[7].Finite?
    ensures Covers(slots[7].v * m.travel.v, frame.position[gripper].v - previous.position[gripper].v, time)
  {
    LimitedWay(limits, command, previous, time, frame, gripper, limit);
    GripperIsReached(m, arm, frame, previous, time, from, gripper, slots, limit);
  }
}
