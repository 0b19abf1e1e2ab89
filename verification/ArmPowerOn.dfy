/** `arm_power_on_sequence.cpp`: the stages between "arms disabled" and "arms enabled". */
module ArmPowerOn {
  import opened Crc16

  const ACTIVE_CONTROL_FLAG: Byte := 0x3D
  const ARMS_DISABLED_CONTROL_FLAG: Byte := 0x25
  const POWER_OFF_CONTROL_FLAG: Byte := 0x00

  datatype Stage = AwaitingReady | ReadyForPrecharge | AwaitingCompletion | Enabled

  datatype FrameKind = PowerOffFrame | PrechargeFrame | EnabledFrame

  const DEFAULT_READY_FRAMES: nat := 5
  const MILLISECOND: int := 1_000_000
  const DEFAULT_PRECHARGE: int := 10 * MILLISECOND

  /** Times are nanoseconds of the steady clock. */
  datatype ArmSequence = ArmSequence(
    stage: Stage, consecutive: nat, latestReady: bool, pending: nat, startedAt: int)

  const RESET_SEQUENCE := ArmSequence(AwaitingReady, 0, false, 0, 0)

  function FlagOf(kind: FrameKind): Byte {
    match kind
    case PowerOffFrame => POWER_OFF_CONTROL_FLAG
    case PrechargeFrame => ARMS_DISABLED_CONTROL_FLAG
    case EnabledFrame => ACTIVE_CONTROL_FLAG
  }

  function DecideFrame(requested: bool, stage: Stage): FrameKind {
    if !requested then PowerOffFrame
    else if stage == Enabled then EnabledFrame
    else PrechargeFrame
  }

  function Observe(a: ArmSequence, required: nat, usable: bool): ArmSequence {
    var seen := a.(latestReady := usable);
    if a.stage == Enabled then seen
    else if !usable then RESET_SEQUENCE
    else
      var n := if a.consecutive < required then a.consecutive + 1 else a.consecutive;
      seen.(consecutive := n,
            stage := if n >= required && a.stage == AwaitingReady then ReadyForPrecharge else a.stage)
  }

  /** What `observe_feedback` answers: the gate has been reached, or the arms are enabled. */
  function GatePassed(a: ArmSequence, required: nat): bool {
    if a.stage == Enabled then a.latestReady else a.latestReady && a.consecutive >= required
  }

  function NotePrecharge(a: ArmSequence, sequence: nat, now: int): ArmSequence {
    if sequence == 0 then a
    else match a.stage
      case ReadyForPrecharge => a.(pending := sequence, startedAt := now, stage := AwaitingCompletion)
      case AwaitingCompletion => a.(pending := sequence)
      case _ => a
  }

  function PrechargeCompleted(a: ArmSequence, duration: int, now: int, written: bool): bool {
    a.stage == AwaitingCompletion && a.latestReady && a.pending != 0 && written &&
    now - a.startedAt >= duration
  }

  function MarkEnabled(a: ArmSequence): ArmSequence {
    if a.stage == AwaitingCompletion then a.(stage := Enabled) else a
  }

  class ArmPowerOnSequence {
    const requiredReadyFrames: nat
    const prechargeDuration: int
    var stage: Stage
    var consecutiveReadyFrames: nat
    var latestFeedbackReady: bool
    var pendingPrechargeSequence: nat
    var prechargeStartedAt: int

    ghost function Model(): ArmSequence
      reads this
    {
      ArmSequence(
        stage, consecutiveReadyFrames, latestFeedbackReady, pendingPrechargeSequence, prechargeStartedAt)
    }

    constructor (required: nat, duration: int)
      ensures Model() == RESET_SEQUENCE
      ensures requiredReadyFrames == if required == 0 then 1 else required
      ensures prechargeDuration == if duration < 0 then 0 else duration
    {
      requiredReadyFrames := if required == 0 then 1 else required;
      prechargeDuration := if duration < 0 then 0 else duration;
      stage, consecutiveReadyFrames, latestFeedbackReady := AwaitingReady, 0, false;
      pendingPrechargeSequence, prechargeStartedAt := 0, 0;
    }

    method Reset()
      modifies this
      ensures Model() == RESET_SEQUENCE
    {
      consecutiveReadyFrames := 0;
      stage := AwaitingReady;
      latestFeedbackReady := false;
      pendingPrechargeSequence := 0;
      prechargeStartedAt := 0;
    }

    method ObserveFeedback(usable: bool) returns (passed: bool)
      modifies this
      ensures Model() == Observe(old(Model()), requiredReadyFrames, usable)
      ensures passed == GatePassed(Model(), requiredReadyFrames)
    {
      latestFeedbackReady := usable;
      if stage == Enabled {
        return latestFeedbackReady;
      }
      if !latestFeedbackReady {
        consecutiveReadyFrames := 0;
        stage := AwaitingReady;
        pendingPrechargeSequence := 0;
        prechargeStartedAt := 0;
        return false;
      }
      if consecutiveReadyFrames < requiredReadyFrames {
        consecutiveReadyFrames := consecutiveReadyFrames + 1;
      }
      if consecutiveReadyFrames < requiredReadyFrames {
        return false;
      }
      if stage == AwaitingReady {
        stage := ReadyForPrecharge;
      }
      return true;
    }

    method NotePrechargeQueued(sequence: nat, now: int) returns (noted: bool)
      modifies this
      ensures Model() == NotePrecharge(old(Model()), sequence, now)
      ensures noted <==> sequence != 0 && Model().stage == AwaitingCompletion
    {
      if sequence == 0 {
        return false;
      }
      if stage == ReadyForPrecharge {
        pendingPrechargeSequence := sequence;
        prechargeStartedAt := now;
        stage := AwaitingCompletion;
        return true;
      }
      if stage == AwaitingCompletion {
        pendingPrechargeSequence := sequence;
        return true;
      }
      return false;
    }

    method IsPrechargeCompleted(now: int, written: bool) returns (done: bool)
      ensures done == PrechargeCompleted(Model(), prechargeDuration, now, written)
    {
      done := stage == AwaitingCompletion && latestFeedbackReady && pendingPrechargeSequence != 0 &&
        written && now - prechargeStartedAt >= prechargeDuration;
    }

    method MarkArmsEnabled()
      modifies this
      ensures Model() == MarkEnabled(old(Model()))
    {
      if stage == AwaitingCompletion {
        stage := Enabled;
      }
    }
  }
}
