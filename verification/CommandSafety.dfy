/** Doubles as reals, with one value standing for every NaN and infinity. */
module Doubles {
  datatype Double = Finite(v: real) | NonFinite

  predicate AllFinite(s: seq<Double>) {
    forall i | 0 <= i < |s| :: s[i].Finite?
  }

  /** `std::clamp`. */
  function Clamp(value: real, low: real, high: real): real {
    if value < low then low else if high < value then high else value
  }

  function Abs(value: real): real {
    if value < 0.0 then -value else value
  }

  function Zeros(n: nat): seq<Double> {
    seq(n, _ => Finite(0.0))
  }
}

/** `command_safety.cpp`: limit checks, the recovery of joints that start outside their hard
    limits, and the per-cycle step limit. */
module CommandSafety {
  import opened Doubles

  const JOINTS: nat := 17
  const BASE: nat := 3
  const HEAD: nat := 3
  const HEAD_BOUNDARY_TOLERANCE: real := 0.01

  datatype Command = Command(position: seq<Double>, baseVelocity: seq<Double>, head: seq<Double>) {
    predicate Shaped() {
      |position| == JOINTS && |baseVelocity| == BASE && |head| == HEAD
    }
  }

  datatype Limits = Limits(
    lower: seq<Double>, upper: seq<Double>, velocity: seq<Double>,
    headLower: seq<Double>, headUpper: seq<Double>, headVelocity: seq<Double>)
  {
    predicate Shaped() {
      && |lower| == JOINTS && |upper| == JOINTS && |velocity| == JOINTS
      && |headLower| == HEAD && |headUpper| == HEAD && |headVelocity| == HEAD
    }
  }

  datatype Direction = Settled | Decreasing | Increasing

  datatype Failure =
    | NoFailure | JointPosition | BaseVelocity | HeadPosition | StartupTolerance | RecoveryDirection

  datatype Diagnostic = Diagnostic(failure: Failure, index: nat) {
    predicate Ok() { failure == NoFailure }
  }

  const CLEAN := Diagnostic(NoFailure, 0)

  // ----- base and head -----

  predicate HeadOk(value: Double, lower: Double, upper: Double) {
    && value.Finite? && lower.Finite? && upper.Finite? && lower.v <= upper.v
    && lower.v - HEAD_BOUNDARY_TOLERANCE <= value.v <= upper.v + HEAD_BOUNDARY_TOLERANCE
  }

  predicate AuxiliaryOk(command: Command, limits: Limits)
    requires command.Shaped() && limits.Shaped()
  {
    && AllFinite(command.baseVelocity)
    && forall i | 0 <= i < HEAD :: HeadOk(command.head[i], limits.headLower[i], limits.headUpper[i])
  }

  method CheckAuxiliaryLimits(command: Command, limits: Limits) returns (d: Diagnostic)
    requires command.Shaped() && limits.Shaped()
    ensures d.Ok() <==> AuxiliaryOk(command, limits)
    ensures d.failure == BaseVelocity <==> !AllFinite(command.baseVelocity)
    ensures !d.Ok() ==> d.failure == BaseVelocity || d.failure == HeadPosition
    ensures d.failure == BaseVelocity ==>
      d.index < BASE && command.baseVelocity[d.index].NonFinite? && AllFinite(command.baseVelocity[..d.index])
    ensures d.failure == HeadPosition ==>
      && d.index < HEAD && !HeadOk(command.head[d.index], limits.headLower[d.index], limits.headUpper[d.index])
      && forall i | 0 <= i < d.index :: HeadOk(command.head[i], limits.headLower[i], limits.headUpper[i])
  {
    for index := 0 to BASE
      invariant AllFinite(command.baseVelocity[..index])
    {
      if command.baseVelocity[index].NonFinite? {
        return Diagnostic(BaseVelocity, index);
      }
    }
    assert command.baseVelocity[..BASE] == command.baseVelocity;
    for index := 0 to HEAD
      invariant forall i | 0 <= i < index :: HeadOk(command.head[i], limits.headLower[i], limits.headUpper[i])
    {
      if !HeadOk(command.head[index], limits.headLower[index], limits.headUpper[index]) {
        return Diagnostic(HeadPosition, index);
      }
    }
    return CLEAN;
  }

  // ----- one joint of the startup recovery -----

  /** `entry` is the sequence of the command that first led the joint back inside, `entryDone`
      whether its write has been seen completed, `doneAt` the feedback sequence at that moment. */
  datatype Joint = Joint(direction: Direction, tolerance: Double, entry: nat, entryDone: bool, doneAt: nat)

  const IDLE_JOINT := Joint(Settled, Finite(0.0), 0, false, 0)

  datatype Plan = Planned(direction: Direction) | Refused(failure: Failure)

  predicate ConfigurationOk(value: Double, lower: Double, upper: Double) {
    value.Finite? && lower.Finite? && upper.Finite? && lower.v <= upper.v
  }

  function PlanJoint(value: Double, lower: Double, upper: Double, allowed: Double): Plan {
    if allowed.NonFinite? || allowed.v < 0.0 then Refused(StartupTolerance)
    else if !ConfigurationOk(value, lower, upper) then Refused(JointPosition)
    else if value.v < lower.v then
      if value.v < lower.v - allowed.v then Refused(JointPosition) else Planned(Increasing)
    else if value.v > upper.v then
      if value.v > upper.v + allowed.v then Refused(JointPosition) else Planned(Decreasing)
    else Planned(Settled)
  }

  function ValidateJoint(value: Double, prior: Double, lower: Double, upper: Double, joint: Joint): Failure {
    if !ConfigurationOk(value, lower, upper) || prior.NonFinite? then JointPosition
    else match joint.direction
      case Decreasing =>
        if value.v < lower.v then JointPosition
        else if value.v > prior.v then RecoveryDirection else NoFailure
      case Increasing =>
        if value.v > upper.v then JointPosition
        else if value.v < prior.v then RecoveryDirection else NoFailure
      case Settled =>
        var slack := if joint.tolerance.Finite? && joint.tolerance.v >= 0.0 then joint.tolerance.v else 0.0;
        if value.v < lower.v - slack || value.v > upper.v + slack then JointPosition else NoFailure
  }

  /** The command leads joint `j` inward and inside its hard limits. */
  predicate EntersLimits(direction: Direction, value: Double, prior: Double, lower: Double, upper: Double) {
    && value.Finite? && prior.Finite? && lower.Finite? && upper.Finite?
    && (match direction
        case Decreasing => value.v < prior.v
        case Increasing => value.v > prior.v
        case Settled => false)
    && lower.v <= value.v <= upper.v
  }

  function NoteJoint(
    value: Double, prior: Double, lower: Double, upper: Double, joint: Joint, sequence: nat): Joint
  {
    if joint.entry == 0 && EntersLimits(joint.direction, value, prior, lower, upper)
    then joint.(entry := sequence, entryDone := false)
    else joint
  }

  datatype Measurement = Fault | Kept(joint: Joint)

  function MeasureJoint(
    value: Double, lower: Double, upper: Double, joint: Joint, written: bool, feedback: nat): Measurement
  {
    if !ConfigurationOk(value, lower, upper) then Fault
    else if joint.direction == Settled then
      var slack := if joint.tolerance.Finite? && joint.tolerance.v >= 0.0 then joint.tolerance.v else 0.0;
      if value.v < lower.v - slack || value.v > upper.v + slack then Fault else Kept(joint)
    else if joint.entry == 0 then Kept(joint)
    else
      var seen := if !joint.entryDone && written && feedback != 0
                  then joint.(entryDone := true, doneAt := feedback) else joint;
      if !seen.entryDone || feedback <= seen.doneAt then Kept(seen)
      else if lower.v <= value.v <= upper.v
      then Kept(seen.(direction := Settled, entry := 0, entryDone := false, doneAt := 0))
      else Kept(seen)
  }

  // ----- all joints -----

  type Recovery = r: seq<Joint> | |r| == JOINTS witness seq(JOINTS, _ => IDLE_JOINT)

  function IdleRecovery(): Recovery {
    seq(JOINTS, _ => IDLE_JOINT)
  }

  predicate BeginOk(measured: Command, limits: Limits, tolerance: seq<Double>)
    requires measured.Shaped() && limits.Shaped() && |tolerance| == JOINTS
  {
    && (forall j | 0 <= j < JOINTS ::
          PlanJoint(measured.position[j], limits.lower[j], limits.upper[j], tolerance[j]).Planned?)
    && AuxiliaryOk(measured, limits)
  }

  function BeginRecovery(measured: Command, limits: Limits, tolerance: seq<Double>): Recovery
    requires measured.Shaped() && limits.Shaped() && |tolerance| == JOINTS
    requires BeginOk(measured, limits, tolerance)
  {
    seq(JOINTS, j requires 0 <= j < JOINTS =>
      Joint(PlanJoint(measured.position[j], limits.lower[j], limits.upper[j], tolerance[j]).direction,
            tolerance[j], 0, false, 0))
  }

  predicate ValidateOk(recovery: Recovery, command: Command, previous: Command, limits: Limits)
    requires command.Shaped() && previous.Shaped() && limits.Shaped()
  {
    && (forall j | 0 <= j < JOINTS ::
          ValidateJoint(command.position[j], previous.position[j], limits.lower[j], limits.upper[j], recovery[j])
            == NoFailure)
    && AuxiliaryOk(command, limits)
  }

  function NoteQueued(
    recovery: Recovery, command: Command, previous: Command, limits: Limits, sequence: nat): Recovery
    requires command.Shaped() && previous.Shaped() && limits.Shaped()
  {
    if sequence == 0 then recovery
    else seq(JOINTS, j requires 0 <= j < JOINTS =>
           NoteJoint(command.position[j], previous.position[j], limits.lower[j], limits.upper[j], recovery[j], sequence))
  }

  function MeasureAt(
    recovery: Recovery, position: seq<Double>, limits: Limits, written: seq<bool>, feedback: nat, j: nat): Measurement
    requires |position| == JOINTS && limits.Shaped() && |written| == JOINTS && j < JOINTS
  {
    MeasureJoint(position[j], limits.lower[j], limits.upper[j], recovery[j], written[j], feedback)
  }

  predicate MeasureOk(
    recovery: Recovery, position: seq<Double>, limits: Limits, written: seq<bool>, feedback: nat)
    requires |position| == JOINTS && limits.Shaped() && |written| == JOINTS
  {
    forall j | 0 <= j < JOINTS :: MeasureAt(recovery, position, limits, written, feedback, j).Kept?
  }

  /** The update stops at the first joint that faults, leaving that one and the later ones as they were. */
  function Measure(
    recovery: Recovery, position: seq<Double>, limits: Limits, written: seq<bool>, feedback: nat): Recovery
    requires |position| == JOINTS && limits.Shaped() && |written| == JOINTS
  {
    seq(JOINTS, j requires 0 <= j < JOINTS =>
      if forall i | 0 <= i <= j :: MeasureAt(recovery, position, limits, written, feedback, i).Kept?
      then MeasureAt(recovery, position, limits, written, feedback, j).joint
      else recovery[j])
  }

  const MAX_ARM_TOLERANCE: real := 0.002
  const MAX_GRIPPER_TOLERANCE: real := 0.001
  const FIRST_ARM_JOINT: nat := 1
  const LEFT_GRIPPER_JOINT: nat := 15
  const RIGHT_GRIPPER_JOINT: nat := 16

  /** The lift has none. */
  function StandardTolerance(arm: real, gripper: real): (t: seq<Double>)
    ensures |t| == JOINTS && AllFinite(t)
  {
    seq(JOINTS, j requires 0 <= j < JOINTS =>
      Finite(if j < FIRST_ARM_JOINT then 0.0 else if j < LEFT_GRIPPER_JOINT then arm else gripper))
  }

  method MakeStandardStartupLimitTolerance(arm: real, gripper: real) returns (tolerance: seq<Double>)
    ensures tolerance == StandardTolerance(arm, gripper) && tolerance[0] == Finite(0.0)
    ensures forall j | 1 <= j < 15 :: tolerance[j] == Finite(arm)
    ensures tolerance[15] == Finite(gripper) == tolerance[16]
  {
    tolerance := Zeros(JOINTS);
    for joint := FIRST_ARM_JOINT to LEFT_GRIPPER_JOINT
      invariant |tolerance| == JOINTS
      invariant forall j | 0 <= j < JOINTS ::
        tolerance[j] == Finite(if FIRST_ARM_JOINT <= j < joint then arm else 0.0)
    {
      tolerance := tolerance[joint := Finite(arm)];
    }
    tolerance := tolerance[LEFT_GRIPPER_JOINT := Finite(gripper)];
    tolerance := tolerance[RIGHT_GRIPPER_JOINT := Finite(gripper)];
  }

  class StartupLimitRecovery {
    var directions: seq<Direction>
    var tolerance: seq<Double>
    var entrySequences: seq<nat>
    var entriesCompleted: seq<bool>
    var completionFeedback: seq<nat>

    ghost predicate Valid()
      reads this
    {
      && |directions| == JOINTS && |tolerance| == JOINTS && |entrySequences| == JOINTS
      && |entriesCompleted| == JOINTS && |completionFeedback| == JOINTS
    }

    ghost function JointAt(j: nat): Joint
      requires Valid() && j < JOINTS
      reads this
    {
      Joint(directions[j], tolerance[j], entrySequences[j], entriesCompleted[j], completionFeedback[j])
    }

    ghost function Model(): Recovery
      requires Valid()
      reads this
    {
      seq(JOINTS, j requires 0 <= j < JOINTS && Valid() reads this => JointAt(j))
    }

    constructor ()
      ensures Valid() && Model() == IdleRecovery()
    {
      directions := seq(JOINTS, _ => Settled);
      tolerance := seq(JOINTS, _ => Finite(0.0));
      entrySequences := seq(JOINTS, _ => 0);
      entriesCompleted := seq(JOINTS, _ => false);
      completionFeedback := seq(JOINTS, _ => 0);
    }

    method Reset()
      modifies this
      ensures Valid() && Model() == IdleRecovery()
    {
      directions := seq(JOINTS, _ => Settled);
      tolerance := seq(JOINTS, _ => Finite(0.0));
      entrySequences := seq(JOINTS, _ => 0);
      entriesCompleted := seq(JOINTS, _ => false);
      completionFeedback := seq(JOINTS, _ => 0);
    }

    method Begin(measured: Command, limits: Limits, tol: seq<Double>) returns (d: Diagnostic)
      requires measured.Shaped() && limits.Shaped() && |tol| == JOINTS
      modifies this
      ensures Valid()
      ensures d.Ok() <==> BeginOk(measured, limits, tol)
      ensures Model() == if d.Ok() then BeginRecovery(measured, limits, tol) else IdleRecovery()
    {
      Reset();
      var planned: seq<Direction> := [];
      for joint := 0 to JOINTS
        invariant Valid() && Model() == IdleRecovery()
        invariant |planned| == joint
        invariant forall j | 0 <= j < joint ::
          PlanJoint(measured.position[j], limits.lower[j], limits.upper[j], tol[j]) == Planned(planned[j])
      {
        var plan := PlanJoint(measured.position[joint], limits.lower[joint], limits.upper[joint], tol[joint]);
        if plan.Refused? {
          return Diagnostic(plan.failure, joint);
        }
        planned := planned + [plan.direction];
      }
      d := CheckAuxiliaryLimits(measured, limits);
      if !d.Ok() {
        return;
      }
      directions := planned;
      tolerance := tol;
      assert forall j | 0 <= j < JOINTS ::
        entrySequences[j] == IdleRecovery()[j].entry && entriesCompleted[j] == IdleRecovery()[j].entryDone &&
        completionFeedback[j] == IdleRecovery()[j].doneAt;
    }

    method Validate(command: Command, previous: Command, limits: Limits) returns (d: Diagnostic)
      requires Valid() && command.Shaped() && previous.Shaped() && limits.Shaped()
      ensures d.Ok() <==> ValidateOk(Model(), command, previous, limits)
    {
      for joint := 0 to JOINTS
        invariant forall j | 0 <= j < joint ::
          ValidateJoint(command.position[j], previous.position[j], limits.lower[j], limits.upper[j], Model()[j])
            == NoFailure
      {
        var it := Joint(
          directions[joint], tolerance[joint], entrySequences[joint], entriesCompleted[joint],
          completionFeedback[joint]);
        var failure := ValidateJoint(
          command.position[joint], previous.position[joint], limits.lower[joint], limits.upper[joint], it);
        if failure != NoFailure {
          return Diagnostic(failure, joint);
        }
      }
      d := CheckAuxiliaryLimits(command, limits);
    }

    method NoteCommandQueued(command: Command, previous: Command, limits: Limits, sequence: nat)
      requires Valid() && command.Shaped() && previous.Shaped() && limits.Shaped()
      modifies this`entrySequences, this`entriesCompleted
      ensures Valid() && Model() == NoteQueued(old(Model()), command, previous, limits, sequence)
    {
      if sequence == 0 {
        return;
      }
      for joint := 0 to JOINTS
        invariant Valid()
        invariant forall j | 0 <= j < joint ::
          JointAt(j) == NoteJoint(
            command.position[j], previous.position[j], limits.lower[j], limits.upper[j], old(JointAt(j)), sequence)
        invariant forall j | joint <= j < JOINTS :: JointAt(j) == old(JointAt(j))
      {
        if entrySequences[joint] != 0 {
          continue;
        }
        if EntersLimits(
          directions[joint], command.position[joint], previous.position[joint],
          limits.lower[joint], limits.upper[joint])
        {
          entrySequences := entrySequences[joint := sequence];
          entriesCompleted := entriesCompleted[joint := false];
        }
      }
    }

    method UpdateMeasuredState(
      position: seq<Double>, limits: Limits, written: seq<bool>, feedback: nat) returns (d: Diagnostic)
      requires Valid() && |position| == JOINTS && limits.Shaped() && |written| == JOINTS
      modifies this
      ensures Valid()
      ensures d.Ok() <==> MeasureOk(old(Model()), position, limits, written, feedback)
      ensures Model() == Measure(old(Model()), position, limits, written, feedback)
    {
      ghost var before := Model();
      for joint := 0 to JOINTS
        invariant Valid()
        invariant forall j | 0 <= j < joint ::
          MeasureAt(before, position, limits, written, feedback, j) == Kept(JointAt(j))
        invariant forall j | joint <= j < JOINTS :: JointAt(j) == before[j]
      {
        var ok := UpdateJoint(joint, position[joint], limits.lower[joint], limits.upper[joint], written[joint], feedback);
        if !ok {
          assert MeasureAt(before, position, limits, written, feedback, joint).Fault?;
          return Diagnostic(JointPosition, joint);
        }
      }
      return CLEAN;
    }

    /** The body of the loop for one joint. */
    method UpdateJoint(
      joint: nat, value: Double, lower: Double, upper: Double, written: bool, feedback: nat) returns (ok: bool)
      requires Valid() && joint < JOINTS
      modifies this
      ensures Valid()
      ensures forall j | 0 <= j < JOINTS && j != joint :: JointAt(j) == old(JointAt(j))
      ensures var m := MeasureJoint(value, lower, upper, old(JointAt(joint)), written, feedback);
        (ok <==> m.Kept?) && JointAt(joint) == if m.Kept? then m.joint else old(JointAt(joint))
    {
      if !ConfigurationOk(value, lower, upper) {
        return false;
      }
      if directions[joint] == Settled {
        var slack := if tolerance[joint].Finite? && tolerance[joint].v >= 0.0 then tolerance[joint].v else 0.0;
        return !(value.v < lower.v - slack || value.v > upper.v + slack);
      }
      ok := true;
      if entrySequences[joint] == 0 {
        return;
      }
      if !entriesCompleted[joint] && written && feedback != 0 {
        entriesCompleted := entriesCompleted[joint := true];
        completionFeedback := completionFeedback[joint := feedback];
      }
      if !entriesCompleted[joint] || feedback <= completionFeedback[joint] {
        return;
      }
      if lower.v <= value.v <= upper.v {
        directions := directions[joint := Settled];
        entrySequences := entrySequences[joint := 0];
        entriesCompleted := entriesCompleted[joint := false];
        completionFeedback := completionFeedback[joint := 0];
      }
    }
  }

  // ----- the step limit -----

  predicate StepOk(value: Double, prior: Double, velocity: Double) {
    velocity.Finite? && velocity.v > 0.0 && prior.Finite? && value.Finite?
  }

  function LimitStep(value: Double, prior: Double, velocity: Double, elapsed: real): Double
    requires StepOk(value, prior, velocity)
  {
    Finite(Clamp(value.v, prior.v - velocity.v * elapsed, prior.v + velocity.v * elapsed))
  }

  predicate StepsOk(values: seq<Double>, priors: seq<Double>, velocities: seq<Double>) {
    && |values| == |priors| == |velocities|
    && forall j | 0 <= j < |values| :: StepOk(values[j], priors[j], velocities[j])
  }

  function LimitSteps(values: seq<Double>, priors: seq<Double>, velocities: seq<Double>, elapsed: real): (r: seq<Double>)
    requires StepsOk(values, priors, velocities)
    ensures |r| == |values| && AllFinite(r)
  {
    seq(|values|, j requires 0 <= j < |values| => LimitStep(values[j], priors[j], velocities[j], elapsed))
  }

  predicate StepLimitOk(command: Command, previous: Command, limits: Limits, elapsed: Double) {
    && elapsed.Finite? && elapsed.v > 0.0
    && StepsOk(command.position, previous.position, limits.velocity)
    && StepsOk(command.head, previous.head, limits.headVelocity)
  }

  function LimitedCommand(command: Command, previous: Command, limits: Limits, elapsed: real): Command
    requires StepLimitOk(command, previous, limits, Finite(elapsed))
  {
    command.(position := LimitSteps(command.position, previous.position, limits.velocity, elapsed),
             head := LimitSteps(command.head, previous.head, limits.headVelocity, elapsed))
  }

  /** One of the two loops: joints, then head axes. */
  method LimitEach(
    values: seq<Double>, priors: seq<Double>, velocities: seq<Double>, elapsed: real)
    returns (ok: bool, limited: seq<Double>)
    requires |values| == |priors| == |velocities|
    ensures ok <==> StepsOk(values, priors, velocities)
    ensures ok ==> limited == LimitSteps(values, priors, velocities, elapsed)
  {
    limited := values;
    for j := 0 to |values|
      invariant |limited| == |values|
      invariant forall i | 0 <= i < j ::
        StepOk(values[i], priors[i], velocities[i]) &&
        limited[i] == LimitStep(values[i], priors[i], velocities[i], elapsed)
      invariant forall i | j <= i < |values| :: limited[i] == values[i]
    {
      if velocities[j].NonFinite? || velocities[j].v <= 0.0 || priors[j].NonFinite? || limited[j].NonFinite? {
        return false, limited;
      }
      var maxDelta := velocities[j].v * elapsed;
      limited := limited[j := Finite(Clamp(limited[j].v, priors[j].v - maxDelta, priors[j].v + maxDelta))];
    }
    ok := true;
  }

  method LimitCommandStep(command: Command, previous: Command, limits: Limits, elapsed: Double)
    returns (ok: bool, limited: Command)
    requires command.Shaped() && previous.Shaped() && limits.Shaped()
    ensures ok <==> StepLimitOk(command, previous, limits, elapsed)
    ensures ok ==> limited == LimitedCommand(command, previous, limits, elapsed.v)
  {
    limited := command;
    if elapsed.NonFinite? || elapsed.v <= 0.0 {
      return false, limited;
    }
    var values;
    ok, values := LimitEach(command.position, previous.position, limits.velocity, elapsed.v);
    if !ok {
      return;
    }
    limited := limited.(position := values);
    ok, values := LimitEach(command.head, previous.head, limits.headVelocity, elapsed.v);
    if !ok {
      return;
    }
    limited := limited.(head := values);
  }

  /** A limited step moves towards the command, never past it, and by at most velocity times time. */
  lemma LimitedStepStaysBetween(value: Double, prior: Double, velocity: Double, elapsed: real)
    requires StepOk(value, prior, velocity) && elapsed > 0.0
    ensures var r := LimitStep(value, prior, velocity, elapsed).v;
      && (prior.v <= r <= value.v || value.v <= r <= prior.v)
      && Abs(r - prior.v) <= velocity.v * elapsed
      && (r == value.v || Abs(r - prior.v) == velocity.v * elapsed)
  {
    assert velocity.v * elapsed >= 0.0;
  }
}
