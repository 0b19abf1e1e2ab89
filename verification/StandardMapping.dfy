/** `standard_mapping.cpp`: joints in radians and metres on one side, motor slots on the other.
    Narrowing to float keeps the value here and only tests its range. */
module StandardMapping {
  import opened Crc16
  import opened Doubles
  import opened CommandSafety
  import opened ArmPowerOn

  const ARM_JOINTS: nat := 7
  const ARM_SLOTS: nat := 8
  const GRIPPER_SLOT: nat := 7
  const LIFT: nat := 0
  const LEFT: nat := 1
  const RIGHT: nat := 8
  const LEFT_GRIPPER: nat := 15
  const RIGHT_GRIPPER: nat := 16
  const PITCH: nat := 0
  const YAW: nat := 1
  const ROLL: nat := 2
  const MILLIMETRES_PER_METRE: real := 1000.0
  const FLOAT_MAX: real := 340282346638528859811704183484516925440.0

  datatype Arm = Arm(motor: seq<nat>, direction: seq<Double>, zero: seq<Double>) {
    predicate Shaped() { |motor| == ARM_JOINTS == |direction| == |zero| }
  }

  datatype Mapping = Mapping(
    left: Arm, right: Arm, travel: Double, pelvisVelocity: Double, armVelocity: Double,
    gripperVelocity: Double, headVelocity: Double, acceleration: seq<Double>)
  {
    predicate Shaped() { left.Shaped() && right.Shaped() && |acceleration| == BASE }
  }

  /** One entry of `joint_velocities`; here an infinity and a NaN fare differently. */
  datatype Speed = Known(v: real) | Infinite | NotANumber

  /** The fields of the command payload that are not always zero. */
  datatype Payload = Payload(
    flag: Byte, base: seq<Double>, acceleration: seq<Double>, pelvisHeight: Double, pelvisVelocity: Double,
    left: seq<Double>, right: seq<Double>, headYaw: Double, headPitch: Double, headRoll: Double,
    leftVelocity: seq<Double>, rightVelocity: seq<Double>)

  datatype Arms = Arms(position: seq<Double>, velocity: seq<Double>, torque: seq<Double>) {
    predicate Shaped() { |position| == ARM_SLOTS == |velocity| == |torque| }
  }

  datatype Feedback = Feedback(
    pelvisHeight: Double, pelvisVelocity: Double, left: Arms, right: Arms,
    waist: Double, headYaw: Double, headPitch: Double)
  {
    predicate Shaped() { left.Shaped() && right.Shaped() }
  }

  datatype State = State(position: seq<Double>, velocity: seq<Double>, effort: seq<Double>)

  // ----- validity -----

  predicate Representable(value: Double) {
    value.Finite? && Abs(value.v) <= FLOAT_MAX
  }

  predicate AllRepresentable(values: seq<Double>) {
    forall i | 0 <= i < |values| :: Representable(values[i])
  }

  /** Every joint has its own motor slot. */
  predicate IsPermutation(motor: seq<nat>) {
    && |motor| == ARM_JOINTS
    && (forall j | 0 <= j < |motor| :: motor[j] < ARM_JOINTS)
    && (forall i, j | 0 <= i < j < |motor| :: motor[i] != motor[j])
  }

  predicate IsDirection(d: Double) {
    d == Finite(-1.0) || d == Finite(1.0)
  }

  predicate ArmOk(arm: Arm) {
    && IsPermutation(arm.motor) && arm.Shaped() && AllRepresentable(arm.zero)
    && forall j | 0 <= j < ARM_JOINTS :: IsDirection(arm.direction[j])
  }

  predicate PositiveAndRepresentable(value: Double) {
    Representable(value) && value.v > 0.0
  }

  predicate ScalarsOk(m: Mapping) {
    && PositiveAndRepresentable(m.travel) && PositiveAndRepresentable(m.pelvisVelocity)
    && PositiveAndRepresentable(m.armVelocity) && PositiveAndRepresentable(m.gripperVelocity)
    && PositiveAndRepresentable(m.headVelocity) && |m.acceleration| == BASE
    && forall i | 0 <= i < BASE :: PositiveAndRepresentable(m.acceleration[i])
  }

  predicate MappingOk(m: Mapping) {
    ArmOk(m.left) && ArmOk(m.right) && ScalarsOk(m)
  }

  method ValidMotorIndices(motor: seq<nat>) returns (ok: bool)
    requires |motor| == ARM_JOINTS
    ensures ok <==> IsPermutation(motor)
  {
    var seen := new bool[ARM_JOINTS](_ => false);
    for joint := 0 to |motor|
      invariant forall j | 0 <= j < joint :: motor[j] < ARM_JOINTS
      invariant forall i, j | 0 <= i < j < joint :: motor[i] != motor[j]
      invariant forall s | 0 <= s < ARM_JOINTS :: seen[s] <==> s in motor[..joint]
    {
      if motor[joint] >= ARM_JOINTS || seen[motor[joint]] {
        return false;
      }
      seen[motor[joint]] := true;
    }
    return true;
  }

  method ValidDirections(direction: seq<Double>) returns (ok: bool)
    ensures ok <==> forall j | 0 <= j < |direction| :: IsDirection(direction[j])
  {
    for joint := 0 to |direction|
      invariant forall j | 0 <= j < joint :: IsDirection(direction[j])
    {
      if !IsDirection(direction[joint]) {
        return false;
      }
    }
    return true;
  }

  method ValidArm(arm: Arm) returns (ok: bool)
    requires arm.Shaped()
    ensures ok <==> ArmOk(arm)
  {
    ok := ValidMotorIndices(arm.motor);
    if ok {
      ok := ValidDirections(arm.direction);
      ok := ok && AllRepresentable(arm.zero);
    }
  }

  method ValidParameters(m: Mapping) returns (ok: bool)
    requires m.Shaped()
    ensures ok <==> MappingOk(m)
  {
    ok := ValidArm(m.left);
    if ok {
      ok := ValidArm(m.right);
      ok := ok && ScalarsOk(m);
    }
  }

  // ----- a permutation fills every slot once -----

  function Slots(motor: seq<nat>): (s: set<nat>)
    ensures forall x :: x in s <==> x in motor
  {
    if motor == [] then {} else Slots(motor[..|motor| - 1]) + {motor[|motor| - 1]}
  }

  lemma {:induction false} DistinctSlots(motor: seq<nat>)
    requires forall i, j | 0 <= i < j < |motor| :: motor[i] != motor[j]
    ensures |Slots(motor)| == |motor|
    decreases |motor|
  {
    if motor != [] {
      DistinctSlots(motor[..|motor| - 1]);
    }
  }

  function Below(n: nat): (s: set<nat>)
    ensures |s| == n && forall x: nat :: x in s <==> x < n
  {
    if n == 0 then {} else Below(n - 1) + {n - 1}
  }

  lemma SubsetOfSameSize(a: set<nat>, b: set<nat>)
    requires a <= b && |a| == |b|
    ensures a == b
  {
    assert |b - a| == 0;
  }

  lemma DistinctFillsAll(motor: seq<nat>, n: nat)
    requires |motor| == n && (forall j | 0 <= j < n :: motor[j] < n)
    requires forall i, j | 0 <= i < j < |motor| :: motor[i] != motor[j]
    ensures forall slot: nat :: slot < n ==> slot in motor
  {
    DistinctSlots(motor);
    SubsetOfSameSize(Slots(motor), Below(n));
  }

  /** Each of the seven slots belongs to exactly one joint. */
  lemma EverySlotHasItsJoint(motor: seq<nat>, slot: nat) returns (joint: nat)
    requires IsPermutation(motor) && slot < ARM_JOINTS
    ensures joint < ARM_JOINTS && motor[joint] == slot
    ensures forall j | 0 <= j < ARM_JOINTS && motor[j] == slot :: j == joint
  {
    DistinctFillsAll(motor, |motor|);
    assert slot in motor;
    joint :| 0 <= joint < |motor| && motor[joint] == slot;
    OnlyJoint(motor, joint);
  }

  lemma OnlyJoint(motor: seq<nat>, joint: nat)
    requires IsPermutation(motor) && joint < ARM_JOINTS
    ensures forall j | 0 <= j < ARM_JOINTS && motor[j] == motor[joint] :: j == joint
  {
    forall j | 0 <= j < ARM_JOINTS && j != joint ensures motor[j] != motor[joint] {
      if j < joint {
        assert motor[j] != motor[joint];
      }
    }
  }

  // ----- encode -----

  /** The raw motor position of joint `j`, whose commanded position is `value`. */
  function Raw(arm: Arm, j: nat, value: Double): Double
    requires ArmOk(arm) && j < ARM_JOINTS && value.Finite?
  {
    Finite(arm.direction[j].v * value.v + arm.zero[j].v)
  }

  function Grip(value: Double, travel: Double): Double
    requires value.Finite? && travel.Finite? && travel.v > 0.0
  {
    Finite(Clamp(value.v / travel.v, 0.0, 1.0))
  }

  predicate CommandOk(command: Command) {
    && command.Shaped() && AllRepresentable(command.position)
    && AllRepresentable(command.baseVelocity) && AllRepresentable(command.head)
  }

  /** The seven arm slots hold the raw positions, the eighth the gripper. */
  predicate ArmEncodes(arm: Arm, positions: seq<Double>, gripper: Double, travel: Double, slots: seq<Double>)
    requires ArmOk(arm) && |positions| == ARM_JOINTS && AllRepresentable(positions)
    requires gripper.Finite? && travel.Finite? && travel.v > 0.0
  {
    && |slots| == ARM_SLOTS
    && (forall j | 0 <= j < ARM_JOINTS :: slots[arm.motor[j]] == Raw(arm, j, positions[j]))
    && slots[GRIPPER_SLOT] == Grip(gripper, travel)
  }

  predicate ArmFits(arm: Arm, positions: seq<Double>)
    requires ArmOk(arm) && |positions| == ARM_JOINTS && AllRepresentable(positions)
  {
    forall j | 0 <= j < ARM_JOINTS :: Representable(Raw(arm, j, positions[j]))
  }

  /** The maximum velocity sent for arm joint `at`; no velocities, or one that is not finite, stand
      for the configured limit, which power-off frames send as zero. */
  function ArmSpeed(m: Mapping, power: bool, speeds: seq<Speed>, at: nat): Double
    requires MappingOk(m) && (speeds == [] || at < |speeds|)
  {
    if speeds == [] || !speeds[at].Known? then if power then m.armVelocity else Finite(0.0)
    else Finite(Clamp(Abs(speeds[at].v), 0.0, m.armVelocity.v))
  }

  /** The same for a gripper; clamping lets a NaN through. */
  function GripSpeed(m: Mapping, power: bool, speeds: seq<Speed>, at: nat): Double
    requires MappingOk(m) && (speeds == [] || at < |speeds|)
  {
    if speeds == [] then if power then m.gripperVelocity else Finite(0.0)
    else match speeds[at]
      case Known(v) => Finite(Clamp(Abs(v) / m.travel.v, 0.0, m.gripperVelocity.v))
      case Infinite => m.gripperVelocity
      case NotANumber => NonFinite
  }

  predicate SpeedsEncode(
    m: Mapping, arm: Arm, power: bool, speeds: seq<Speed>, from: nat, gripper: nat, slots: seq<Double>)
    requires MappingOk(m) && ArmOk(arm) && (speeds == [] || |speeds| == JOINTS)
    requires from + ARM_JOINTS <= JOINTS && gripper < JOINTS
  {
    && |slots| == ARM_SLOTS
    && (forall j | 0 <= j < ARM_JOINTS :: slots[arm.motor[j]] == ArmSpeed(m, power, speeds, from + j))
    && slots[GRIPPER_SLOT] == GripSpeed(m, power, speeds, gripper)
  }

  function Lift(command: Command): Double
    requires CommandOk(command)
  {
    Finite(command.position[LIFT].v * MILLIMETRES_PER_METRE)
  }

  /** What `encode_standard_command` demands. */
  predicate Encodable(command: Command, m: Mapping, headHold: seq<Double>, speeds: seq<Speed>)
    requires speeds == [] || |speeds| == JOINTS
  {
    && CommandOk(command) && MappingOk(m) && AllFinite(headHold)
    && Representable(Lift(command))
    && ArmFits(m.left, command.position[LEFT..RIGHT])
    && ArmFits(m.right, command.position[RIGHT..LEFT_GRIPPER])
    && (speeds != [] ==> !speeds[LEFT_GRIPPER].NotANumber? && !speeds[RIGHT_GRIPPER].NotANumber?)
  }

  /** The payload carries this command. */
  predicate Encodes(command: Command, m: Mapping, power: bool, speeds: seq<Speed>, p: Payload)
    requires CommandOk(command) && MappingOk(m) && (speeds == [] || |speeds| == JOINTS)
  {
    && p.flag == (if power then ACTIVE_CONTROL_FLAG else POWER_OFF_CONTROL_FLAG)
    && p.base == (if power then command.baseVelocity else Zeros(BASE))
    && p.acceleration == (if power then m.acceleration else Zeros(BASE))
    && p.pelvisHeight == Lift(command)
    && p.pelvisVelocity == (if power then m.pelvisVelocity else Finite(0.0))
    && ArmEncodes(m.left, command.position[LEFT..RIGHT], command.position[LEFT_GRIPPER], m.travel, p.left)
    && ArmEncodes(m.right, command.position[RIGHT..LEFT_GRIPPER], command.position[RIGHT_GRIPPER], m.travel, p.right)
    && p.headYaw == Finite(-command.head[YAW].v) && p.headPitch == Finite(-command.head[PITCH].v)
    && p.headRoll == Finite(-command.head[ROLL].v)
    && SpeedsEncode(m, m.left, power, speeds, LEFT, LEFT_GRIPPER, p.leftVelocity)
    && SpeedsEncode(m, m.right, power, speeds, RIGHT, RIGHT_GRIPPER, p.rightVelocity)
  }

  /** `command_payload_is_finite`. */
  predicate PayloadFinite(p: Payload) {
    && AllFinite(p.base) && AllFinite(p.acceleration) && p.pelvisHeight.Finite? && p.pelvisVelocity.Finite?
    && AllFinite(p.left) && AllFinite(p.right) && p.headYaw.Finite? && p.headPitch.Finite? && p.headRoll.Finite?
    && AllFinite(p.leftVelocity) && AllFinite(p.rightVelocity)
  }

  /** `speeds` is empty when no joint velocities are passed. */
  method EncodeStandardCommand(
    command: Command, m: Mapping, headHold: seq<Double>, power: bool, speeds: seq<Speed>)
    returns (ok: bool, p: Payload)
    requires command.Shaped() && m.Shaped() && (speeds == [] || |speeds| == JOINTS)
    ensures ok <==> Encodable(command, m, headHold, speeds)
    ensures ok ==> Encodes(command, m, power, speeds, p) && PayloadFinite(p)
  {
    var zero, zeros := Finite(0.0), Zeros(ARM_SLOTS);
    p := Payload(
      POWER_OFF_CONTROL_FLAG, Zeros(BASE), Zeros(BASE), zero, zero, zeros, zeros, zero, zero, zero, zeros, zeros);
    ok := ValidParameters(m);
    if !ok || !CommandOk(command) || !AllFinite(headHold) {
      return false, p;
    }
    if power {
      p := p.(flag := ACTIVE_CONTROL_FLAG, base := command.baseVelocity, acceleration := m.acceleration,
              pelvisVelocity := m.pelvisVelocity);
    }
    var pelvisHeight := Finite(command.position[LIFT].v * MILLIMETRES_PER_METRE);
    if !Representable(pelvisHeight) {
      return false, p;
    }
    var left, right;
    ok, left, right := EncodeArms(
      m, command.position[LEFT..RIGHT], command.position[RIGHT..LEFT_GRIPPER],
      command.position[LEFT_GRIPPER], command.position[RIGHT_GRIPPER]);
    if !ok {
      return;
    }
    var leftVelocity, rightVelocity := EncodeSpeeds(m, power, speeds);
    p := p.(pelvisHeight := pelvisHeight, left := left, right := right,
            headYaw := Finite(-command.head[YAW].v), headPitch := Finite(-command.head[PITCH].v),
            headRoll := Finite(-command.head[ROLL].v),
            leftVelocity := leftVelocity, rightVelocity := rightVelocity);
    EncodedIsFinite(command, m, power, speeds, p);
    ok := PayloadFinite(p);
  }

  /** The other half of that loop: the maximum velocities. */
  method EncodeSpeeds(m: Mapping, power: bool, speeds: seq<Speed>) returns (left: seq<Double>, right: seq<Double>)
    requires MappingOk(m) && (speeds == [] || |speeds| == JOINTS)
    ensures SpeedsEncode(m, m.left, power, speeds, LEFT, LEFT_GRIPPER, left)
    ensures SpeedsEncode(m, m.right, power, speeds, RIGHT, RIGHT_GRIPPER, right)
  {
    var l, r := new Double[ARM_SLOTS](_ => Finite(0.0)), new Double[ARM_SLOTS](_ => Finite(0.0));
    for joint := 0 to ARM_JOINTS
      invariant forall j | 0 <= j < joint :: l[m.left.motor[j]] == ArmSpeed(m, power, speeds, LEFT + j)
      invariant forall j | 0 <= j < joint :: r[m.right.motor[j]] == ArmSpeed(m, power, speeds, RIGHT + j)
    {
      l[m.left.motor[joint]] := ArmSpeed(m, power, speeds, LEFT + joint);
      r[m.right.motor[joint]] := ArmSpeed(m, power, speeds, RIGHT + joint);
    }
    l[GRIPPER_SLOT] := GripSpeed(m, power, speeds, LEFT_GRIPPER);
    r[GRIPPER_SLOT] := GripSpeed(m, power, speeds, RIGHT_GRIPPER);
    return l[..], r[..];
  }

  lemma ArmSlotsFinite(
    arm: Arm, positions: seq<Double>, gripper: Double, travel: Double, slots: seq<Double>)
    requires ArmOk(arm) && |positions| == ARM_JOINTS && AllRepresentable(positions)
    requires gripper.Finite? && travel.Finite? && travel.v > 0.0
    requires ArmEncodes(arm, positions, gripper, travel, slots)
    ensures AllFinite(slots)
  {
    forall s | 0 <= s < ARM_SLOTS ensures slots[s].Finite? {
      if s < ARM_JOINTS {
        var j := EverySlotHasItsJoint(arm.motor, s);
        assert slots[arm.motor[j]] == Raw(arm, j, positions[j]);
      }
    }
  }

  /** Every maximum velocity is between zero and its configured limit, unless a gripper's is no number. */
  lemma SpeedsWithinLimits(
    m: Mapping, arm: Arm, power: bool, speeds: seq<Speed>, from: nat, gripper: nat, slots: seq<Double>)
    requires MappingOk(m) && ArmOk(arm) && (speeds == [] || |speeds| == JOINTS)
    requires from + ARM_JOINTS <= JOINTS && gripper < JOINTS
    requires SpeedsEncode(m, arm, power, speeds, from, gripper, slots)
    ensures forall s | 0 <= s < ARM_JOINTS :: slots[s].Finite? && 0.0 <= slots[s].v <= m.armVelocity.v
    ensures slots[GRIPPER_SLOT].Finite? <==> !(speeds != [] && speeds[gripper].NotANumber?)
    ensures slots[GRIPPER_SLOT].Finite? ==> 0.0 <= slots[GRIPPER_SLOT].v <= m.gripperVelocity.v
  {
    forall s | 0 <= s < ARM_JOINTS ensures slots[s].Finite? && 0.0 <= slots[s].v <= m.armVelocity.v {
      var j := EverySlotHasItsJoint(arm.motor, s);
      assert slots[arm.motor[j]] == ArmSpeed(m, power, speeds, from + j);
    }
  }

  lemma EncodedIsFinite(command: Command, m: Mapping, power: bool, speeds: seq<Speed>, p: Payload)
    requires CommandOk(command) && MappingOk(m) && (speeds == [] || |speeds| == JOINTS)
    requires Encodes(command, m, power, speeds, p)
    ensures PayloadFinite(p) <==>
      (speeds != [] ==> !speeds[LEFT_GRIPPER].NotANumber? && !speeds[RIGHT_GRIPPER].NotANumber?)
  {
    ArmSlotsFinite(m.left, command.position[LEFT..RIGHT], command.position[LEFT_GRIPPER], m.travel, p.left);
    ArmSlotsFinite(m.right, command.position[RIGHT..LEFT_GRIPPER], command.position[RIGHT_GRIPPER], m.travel, p.right);
    SpeedsWithinLimits(m, m.left, power, speeds, LEFT, LEFT_GRIPPER, p.leftVelocity);
    SpeedsWithinLimits(m, m.right, power, speeds, RIGHT, RIGHT_GRIPPER, p.rightVelocity);
  }

  /** One loop writes both arms, slot by slot. */
  method EncodeArms(
    m: Mapping, leftPositions: seq<Double>, rightPositions: seq<Double>, leftGripper: Double, rightGripper: Double)
    returns (ok: bool, left: seq<Double>, right: seq<Double>)
    requires MappingOk(m) && |leftPositions| == ARM_JOINTS == |rightPositions|
    requires AllRepresentable(leftPositions) && AllRepresentable(rightPositions)
    requires leftGripper.Finite? && rightGripper.Finite?
    ensures ok <==> ArmFits(m.left, leftPositions) && ArmFits(m.right, rightPositions)
    ensures ok ==> ArmEncodes(m.left, leftPositions, leftGripper, m.travel, left)
    ensures ok ==> ArmEncodes(m.right, rightPositions, rightGripper, m.travel, right)
  {
    var l, r := new Double[ARM_SLOTS](_ => Finite(0.0)), new Double[ARM_SLOTS](_ => Finite(0.0));
    for joint := 0 to ARM_JOINTS
      invariant forall j | 0 <= j < joint ::
        l[m.left.motor[j]] == Raw(m.left, j, leftPositions[j]) && Representable(Raw(m.left, j, leftPositions[j]))
      invariant forall j | 0 <= j < joint ::
        r[m.right.motor[j]] == Raw(m.right, j, rightPositions[j]) && Representable(Raw(m.right, j, rightPositions[j]))
    {
      var leftRaw, rightRaw := Raw(m.left, joint, leftPositions[joint]), Raw(m.right, joint, rightPositions[joint]);
      if !Representable(leftRaw) || !Representable(rightRaw) {
        return false, l[..], r[..];
      }
      l[m.left.motor[joint]] := leftRaw;
      r[m.right.motor[joint]] := rightRaw;
    }
    l[GRIPPER_SLOT] := Grip(leftGripper, m.travel);
    r[GRIPPER_SLOT] := Grip(rightGripper, m.travel);
    return true, l[..], r[..];
  }

  /** No slot is left over: the command determines the payload. */
  lemma ArmEncodingIsUnique(
    arm: Arm, positions: seq<Double>, gripper: Double, travel: Double, a: seq<Double>, b: seq<Double>)
    requires ArmOk(arm) && |positions| == ARM_JOINTS && AllRepresentable(positions)
    requires gripper.Finite? && travel.Finite? && travel.v > 0.0
    requires ArmEncodes(arm, positions, gripper, travel, a) && ArmEncodes(arm, positions, gripper, travel, b)
    ensures a == b
  {
    forall s | 0 <= s < ARM_SLOTS ensures a[s] == b[s] {
      if s < ARM_JOINTS {
        var j := EverySlotHasItsJoint(arm.motor, s);
        assert a[arm.motor[j]] == b[arm.motor[j]];
      }
    }
  }

  lemma SpeedEncodingIsUnique(
    m: Mapping, arm: Arm, power: bool, speeds: seq<Speed>, from: nat, gripper: nat, a: seq<Double>, b: seq<Double>)
    requires MappingOk(m) && ArmOk(arm) && (speeds == [] || |speeds| == JOINTS)
    requires from + ARM_JOINTS <= JOINTS && gripper < JOINTS
    requires SpeedsEncode(m, arm, power, speeds, from, gripper, a) && SpeedsEncode(m, arm, power, speeds, from, gripper, b)
    ensures a == b
  {
    forall s | 0 <= s < ARM_SLOTS ensures a[s] == b[s] {
      if s < ARM_JOINTS {
        var j := EverySlotHasItsJoint(arm.motor, s);
        assert a[arm.motor[j]] == b[arm.motor[j]];
      }
    }
  }

  lemma EncodingIsUnique(command: Command, m: Mapping, power: bool, speeds: seq<Speed>, p: Payload, q: Payload)
    requires CommandOk(command) && MappingOk(m) && (speeds == [] || |speeds| == JOINTS)
    requires Encodes(command, m, power, speeds, p) && Encodes(command, m, power, speeds, q)
    ensures p == q
  {
    ArmEncodingIsUnique(m.left, command.position[LEFT..RIGHT], command.position[LEFT_GRIPPER], m.travel, p.left, q.left);
    ArmEncodingIsUnique(
      m.right, command.position[RIGHT..LEFT_GRIPPER], command.position[RIGHT_GRIPPER], m.travel, p.right, q.right);
    SpeedEncodingIsUnique(m, m.left, power, speeds, LEFT, LEFT_GRIPPER, p.leftVelocity, q.leftVelocity);
    SpeedEncodingIsUnique(m, m.right, power, speeds, RIGHT, RIGHT_GRIPPER, p.rightVelocity, q.rightVelocity);
  }

  // ----- decode -----

  function Scaled(value: Double, factor: real): Double {
    if value.Finite? then Finite(factor * value.v) else NonFinite
  }

  function Decoded(arm: Arm, j: nat, raw: Double): Double
    requires ArmOk(arm) && j < ARM_JOINTS
  {
    if raw.Finite? then Finite(arm.direction[j].v * (raw.v - arm.zero[j].v)) else NonFinite
  }

  predicate StateShaped(s: State) {
    |s.position| == JOINTS == |s.velocity| == |s.effort|
  }

  predicate StateFinite(s: State) {
    AllFinite(s.position) && AllFinite(s.velocity) && AllFinite(s.effort)
  }

  /** The seven joint values, out of the motor slots of the arm. */
  predicate PositionsDecode(arm: Arm, raw: seq<Double>, values: seq<Double>)
    requires ArmOk(arm) && |raw| == ARM_SLOTS
  {
    |values| == ARM_JOINTS && forall j | 0 <= j < ARM_JOINTS :: values[j] == Decoded(arm, j, raw[arm.motor[j]])
  }

  predicate RatesDecode(arm: Arm, raw: seq<Double>, values: seq<Double>)
    requires ArmOk(arm) && |raw| == ARM_SLOTS
  {
    && |values| == ARM_JOINTS
    && forall j | 0 <= j < ARM_JOINTS :: values[j] == Scaled(raw[arm.motor[j]], arm.direction[j].v)
  }

  predicate ArmDecodes(arm: Arm, a: Arms, from: nat, s: State)
    requires ArmOk(arm) && a.Shaped() && StateShaped(s) && from + ARM_JOINTS <= JOINTS
  {
    && PositionsDecode(arm, a.position, s.position[from..from + ARM_JOINTS])
    && RatesDecode(arm, a.velocity, s.velocity[from..from + ARM_JOINTS])
    && RatesDecode(arm, a.torque, s.effort[from..from + ARM_JOINTS])
  }

  predicate GripperDecodes(travel: real, a: Arms, at: nat, s: State)
    requires a.Shaped() && StateShaped(s) && at < JOINTS
  {
    && s.position[at] == Scaled(a.position[GRIPPER_SLOT], travel)
    && s.velocity[at] == Scaled(a.velocity[GRIPPER_SLOT], travel)
    && s.effort[at] == a.torque[GRIPPER_SLOT]
  }

  /** The state is what this feedback measures. */
  predicate Decodes(f: Feedback, m: Mapping, s: State)
    requires f.Shaped() && MappingOk(m)
  {
    && StateShaped(s)
    && s.position[LIFT] == Scaled(f.pelvisHeight, 1.0 / MILLIMETRES_PER_METRE)
    && s.velocity[LIFT] == Scaled(f.pelvisVelocity, 1.0 / MILLIMETRES_PER_METRE)
    && s.effort[LIFT] == Finite(0.0)
    && ArmDecodes(m.left, f.left, LEFT, s)
    && ArmDecodes(m.right, f.right, RIGHT, s)
    && GripperDecodes(m.travel.v, f.left, LEFT_GRIPPER, s)
    && GripperDecodes(m.travel.v, f.right, RIGHT_GRIPPER, s)
  }

  method DecodeStandardState(f: Feedback, m: Mapping) returns (ok: bool, s: State)
    requires f.Shaped() && m.Shaped()
    ensures MappingOk(m) ==> Decodes(f, m, s)
    ensures ok <==> MappingOk(m) && StateFinite(s)
  {
    s := State(Zeros(JOINTS), Zeros(JOINTS), Zeros(JOINTS));
    ok := ValidParameters(m);
    if !ok {
      return;
    }
    s := DecodeJoints(f, m);
    ok := StateFinite(s);
  }

  method DecodeJoints(f: Feedback, m: Mapping) returns (s: State)
    requires f.Shaped() && MappingOk(m)
    ensures Decodes(f, m, s)
  {
    var position := DecodeValues(
      f.pelvisHeight, m, f.left.position, f.right.position, true,
      Scaled(f.left.position[GRIPPER_SLOT], m.travel.v), Scaled(f.right.position[GRIPPER_SLOT], m.travel.v));
    var velocity := DecodeValues(
      f.pelvisVelocity, m, f.left.velocity, f.right.velocity, false,
      Scaled(f.left.velocity[GRIPPER_SLOT], m.travel.v), Scaled(f.right.velocity[GRIPPER_SLOT], m.travel.v));
    var effort := DecodeValues(
      Finite(0.0), m, f.left.torque, f.right.torque, false,
      f.left.torque[GRIPPER_SLOT], f.right.torque[GRIPPER_SLOT]);
    s := State(position, velocity, effort);
  }

  /** One of the three arrays the loop fills; only positions have a zero to subtract. */
  method DecodeValues(
    lift: Double, m: Mapping, left: seq<Double>, right: seq<Double>, positions: bool,
    leftGripper: Double, rightGripper: Double)
    returns (values: seq<Double>)
    requires MappingOk(m) && |left| == ARM_SLOTS == |right|
    ensures |values| == JOINTS && values[LIFT] == Scaled(lift, 1.0 / MILLIMETRES_PER_METRE)
    ensures values[LEFT_GRIPPER] == leftGripper && values[RIGHT_GRIPPER] == rightGripper
    ensures positions ==>
      PositionsDecode(m.left, left, values[LEFT..RIGHT]) && PositionsDecode(m.right, right, values[RIGHT..LEFT_GRIPPER])
    ensures !positions ==>
      RatesDecode(m.left, left, values[LEFT..RIGHT]) && RatesDecode(m.right, right, values[RIGHT..LEFT_GRIPPER])
  {
    var a := new Double[JOINTS](_ => Finite(0.0));
    a[LIFT] := Scaled(lift, 1.0 / MILLIMETRES_PER_METRE);
    for joint := 0 to ARM_JOINTS
      invariant a[LIFT] == Scaled(lift, 1.0 / MILLIMETRES_PER_METRE)
      invariant forall j | 0 <= j < joint ::
        a[LEFT + j] == DecodedValue(m.left, j, left[m.left.motor[j]], positions)
      invariant forall j | 0 <= j < joint ::
        a[RIGHT + j] == DecodedValue(m.right, j, right[m.right.motor[j]], positions)
    {
      a[LEFT + joint] := DecodedValue(m.left, joint, left[m.left.motor[joint]], positions);
      a[RIGHT + joint] := DecodedValue(m.right, joint, right[m.right.motor[joint]], positions);
    }
    a[LEFT_GRIPPER] := leftGripper;
    a[RIGHT_GRIPPER] := rightGripper;
    values := a[..];
  }

  function DecodedValue(arm: Arm, j: nat, raw: Double, position: bool): Double
    requires ArmOk(arm) && j < ARM_JOINTS
  {
    if position then Decoded(arm, j, raw) else Scaled(raw, arm.direction[j].v)
  }

  /** `try_extract_head_hold`: pitch, yaw and roll; the roll is not measured and stays. */
  method TryExtractHeadHold(f: Feedback, headHold: seq<Double>) returns (ok: bool, next: seq<Double>)
    requires |headHold| == HEAD
    ensures ok <==> f.waist.Finite? && f.headYaw.Finite? && f.headPitch.Finite?
    ensures next == if ok then [Finite(-f.headPitch.v), Finite(-f.headYaw.v), headHold[ROLL]] else headHold
  {
    if f.waist.NonFinite? || f.headYaw.NonFinite? || f.headPitch.NonFinite? {
      return false, headHold;
    }
    return true, [Finite(-f.headPitch.v), Finite(-f.headYaw.v), headHold[ROLL]];
  }

  // ----- the two directions undo each other -----

  /** The robot reports the positions it was sent. */
  predicate Reports(f: Feedback, p: Payload) {
    f.pelvisHeight == p.pelvisHeight && f.left.position == p.left && f.right.position == p.right
  }

  lemma DirectionTwice(d: real, x: real)
    requires d == 1.0 || d == -1.0
    ensures d * (d * x) == x
  {}

  lemma JointRoundTrip(arm: Arm, j: nat, value: Double)
    requires ArmOk(arm) && j < ARM_JOINTS && value.Finite?
    ensures Decoded(arm, j, Raw(arm, j, value)) == value
    ensures Raw(arm, j, Decoded(arm, j, value)) == value
  {
    DirectionTwice(arm.direction[j].v, value.v);
    DirectionTwice(arm.direction[j].v, value.v - arm.zero[j].v);
  }

  lemma GripRoundTrip(value: real, travel: real)
    requires travel > 0.0
    ensures travel * Clamp(value / travel, 0.0, 1.0) == Clamp(value, 0.0, travel)
  {
    ClampScales(value / travel, travel, value);
  }

  lemma LiftThere(value: real)
    ensures Scaled(Finite(value * MILLIMETRES_PER_METRE), 1.0 / MILLIMETRES_PER_METRE) == Finite(value)
  {}

  lemma GripThere(value: Double, travel: Double)
    requires value.Finite? && travel.Finite? && travel.v > 0.0
    ensures Scaled(Grip(value, travel), travel.v) == Finite(Clamp(value.v, 0.0, travel.v))
  {
    GripRoundTrip(value.v, travel.v);
  }

  lemma ClampScales(q: real, travel: real, value: real)
    requires travel > 0.0 && value == q * travel
    ensures travel * Clamp(q, 0.0, 1.0) == Clamp(value, 0.0, travel)
  {
    if q > 1.0 {
      assert (q - 1.0) * travel > 0.0;
    } else if 0.0 <= q {
      assert (1.0 - q) * travel >= 0.0;
    }
  }

  lemma ArmThere(
    arm: Arm, positions: seq<Double>, gripper: Double, travel: Double, slots: seq<Double>, values: seq<Double>)
    requires ArmOk(arm) && |positions| == ARM_JOINTS && AllRepresentable(positions)
    requires gripper.Finite? && travel.Finite? && travel.v > 0.0
    requires ArmEncodes(arm, positions, gripper, travel, slots) && PositionsDecode(arm, slots, values)
    ensures values == positions
  {
    forall j | 0 <= j < ARM_JOINTS ensures values[j] == positions[j] {
      assert slots[arm.motor[j]] == Raw(arm, j, positions[j]);
      JointRoundTrip(arm, j, positions[j]);
    }
  }

  lemma ArmBack(arm: Arm, raw: seq<Double>, values: seq<Double>, gripper: Double, travel: Double, slots: seq<Double>)
    requires ArmOk(arm) && |raw| == ARM_SLOTS && PositionsDecode(arm, raw, values) && AllRepresentable(values)
    requires gripper.Finite? && travel.Finite? && travel.v > 0.0
    requires ArmEncodes(arm, values, gripper, travel, slots)
    ensures slots[..GRIPPER_SLOT] == raw[..GRIPPER_SLOT]
  {
    forall slot | 0 <= slot < ARM_JOINTS ensures slots[slot] == raw[slot] {
      var j := EverySlotHasItsJoint(arm.motor, slot);
      assert values[j] == Decoded(arm, j, raw[arm.motor[j]]);
      assert slots[arm.motor[j]] == Raw(arm, j, values[j]);
      JointRoundTrip(arm, j, raw[slot]);
    }
  }

  /** Decoding what was encoded gives the commanded lift and arm positions back; the grippers are
      clamped to their travel. */
  lemma EncodeThenDecode(
    command: Command, m: Mapping, headHold: seq<Double>, power: bool, speeds: seq<Speed>, p: Payload,
    f: Feedback, s: State)
    requires speeds == [] || |speeds| == JOINTS
    requires Encodable(command, m, headHold, speeds) && Encodes(command, m, power, speeds, p)
    requires f.Shaped() && Reports(f, p) && Decodes(f, m, s)
    ensures s.position[..LEFT_GRIPPER] == command.position[..LEFT_GRIPPER]
    ensures s.position[LEFT_GRIPPER] == Finite(Clamp(command.position[LEFT_GRIPPER].v, 0.0, m.travel.v))
    ensures s.position[RIGHT_GRIPPER] == Finite(Clamp(command.position[RIGHT_GRIPPER].v, 0.0, m.travel.v))
  {
    var c := command.position;
    ArmThere(m.left, c[LEFT..RIGHT], c[LEFT_GRIPPER], m.travel, p.left, s.position[LEFT..RIGHT]);
    ArmThere(m.right, c[RIGHT..LEFT_GRIPPER], c[RIGHT_GRIPPER], m.travel, p.right, s.position[RIGHT..LEFT_GRIPPER]);
    LiftThere(c[LIFT].v);
    assert s.position[..LEFT_GRIPPER] == [s.position[LIFT]] + s.position[LEFT..RIGHT] + s.position[RIGHT..LEFT_GRIPPER];
    assert c[..LEFT_GRIPPER] == [c[LIFT]] + c[LEFT..RIGHT] + c[RIGHT..LEFT_GRIPPER];
    GripThere(c[LEFT_GRIPPER], m.travel);
    GripThere(c[RIGHT_GRIPPER], m.travel);
  }

  /** Commanding the measured positions reproduces every raw motor position; the grippers' are
      clamped to [0, 1]. */
  lemma DecodeThenEncode(
    f: Feedback, m: Mapping, s: State, command: Command, power: bool, speeds: seq<Speed>, p: Payload)
    requires f.Shaped() && MappingOk(m) && Decodes(f, m, s) && StateFinite(s)
    requires CommandOk(command) && command.position == s.position && (speeds == [] || |speeds| == JOINTS)
    requires Encodes(command, m, power, speeds, p)
    ensures p.pelvisHeight == f.pelvisHeight
    ensures p.left[..GRIPPER_SLOT] == f.left.position[..GRIPPER_SLOT]
    ensures p.right[..GRIPPER_SLOT] == f.right.position[..GRIPPER_SLOT]
    ensures f.left.position[GRIPPER_SLOT].Finite? && f.right.position[GRIPPER_SLOT].Finite?
    ensures p.left[GRIPPER_SLOT] == Finite(Clamp(f.left.position[GRIPPER_SLOT].v, 0.0, 1.0))
    ensures p.right[GRIPPER_SLOT] == Finite(Clamp(f.right.position[GRIPPER_SLOT].v, 0.0, 1.0))
  {
    var c := command.position;
    ArmBack(m.left, f.left.position, c[LEFT..RIGHT], c[LEFT_GRIPPER], m.travel, p.left);
    ArmBack(m.right, f.right.position, c[RIGHT..LEFT_GRIPPER], c[RIGHT_GRIPPER], m.travel, p.right);
    TravelCancels(f.left.position[GRIPPER_SLOT], m.travel.v);
    TravelCancels(f.right.position[GRIPPER_SLOT], m.travel.v);
  }

  lemma TravelCancels(value: Double, travel: real)
    requires Scaled(value, travel).Finite? && travel > 0.0
    ensures value.Finite? && Scaled(value, travel).v / travel == value.v
  {}
}
