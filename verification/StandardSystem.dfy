/** The hardware object of `standard_system_hardware.cpp`. Its methods change the fields step by
    step; each is tied to the function of `HardwareModel` or `Activation` that the safety results
    are about. What the clock, the feedback, the controllers and the transport answer comes in
    as the argument. */
module StandardSystem {
  import opened CommandMailbox
  import opened Doubles
  import opened CommandSafety
  import opened ArmPowerOn
  import opened HardwareModel
  import opened Activation

  const LIFT: nat := 0
  const LEFT_GRIPPER: nat := 15
  const RIGHT_GRIPPER: nat := 16
  const MILLIMETRES_PER_METRE: real := 1000.0

  function Product(value: Double, factor: Double): Double {
    if value.Finite? && factor.Finite? then Finite(value.v * factor.v) else NonFinite
  }

  predicate AllPositive(values: seq<Double>) {
    forall i | 0 <= i < |values| :: values[i].Finite? && values[i].v > 0.0
  }

  /** `update_joint_velocity_limits`: the velocity limits that the step limit works with are accepted
      only when every one of them is finite and positive. */
  method UpdateJointVelocityLimits(
    limits: Limits, arm: Double, pelvis: Double, gripper: Double, travel: Double, head: Double)
    returns (ok: bool, updated: Limits)
    requires limits.Shaped()
    ensures updated == limits.(velocity := updated.velocity, headVelocity := updated.headVelocity)
    ensures updated.Shaped()
    ensures updated.velocity[LIFT] == Product(pelvis, Finite(1.0 / MILLIMETRES_PER_METRE))
    ensures updated.velocity[LEFT_GRIPPER] == Product(gripper, travel) == updated.velocity[RIGHT_GRIPPER]
    ensures forall j | 0 <= j < JOINTS && j != LIFT && j < LEFT_GRIPPER :: updated.velocity[j] == arm
    ensures forall j | 0 <= j < HEAD :: updated.headVelocity[j] == head
    ensures ok <==> AllPositive(updated.velocity) && AllPositive(updated.headVelocity)
    ensures ok ==> AllFinite(updated.velocity)
  {
    var velocity := seq(JOINTS, _ => arm);
    velocity := velocity[LIFT := Product(pelvis, Finite(1.0 / MILLIMETRES_PER_METRE))];
    velocity := velocity[LEFT_GRIPPER := Product(gripper, travel)];
    velocity := velocity[RIGHT_GRIPPER := Product(gripper, travel)];
    updated := limits.(velocity := velocity, headVelocity := seq(HEAD, _ => head));
    ok := AllPositive(updated.velocity) && AllPositive(updated.headVelocity);
  }

  class StandardSystemHardware {
    const config: Config
    const armSequence: ArmPowerOnSequence
    const limitRecovery: StartupLimitRecovery
    var active: bool
    var serialFault: bool
    var enableFrameSent: bool
    var safeHold: Command
    var lastSent: Command
    var headHold: seq<Double>
    var elapsed: real
    var lastStamp: int
    var wakeups: nat
    var stateFailures: nat
    var commandFailures: nat
    ghost var log: seq<Event>
    ghost var asked: seq<Asking>

    ghost predicate Valid()
      reads this, limitRecovery
    {
      && config.Shaped() && limitRecovery.Valid()
      && armSequence.requiredReadyFrames == config.required
      && armSequence.prechargeDuration == config.precharge
      && safeHold.Shaped() && lastSent.Shaped() && |headHold| == HEAD
    }

    ghost function Model(): (s: Hardware)
      requires Valid()
      reads this, armSequence, limitRecovery
      ensures s.Shaped()
    {
      Hardware(active, serialFault, armSequence.Model(), enableFrameSent, limitRecovery.Model(),
               safeHold, lastSent, headHold, elapsed, lastStamp, wakeups, stateFailures, commandFailures, log, asked)
    }

    constructor (c: Config)
      requires c.Shaped()
      ensures Valid() && config == c && fresh(armSequence) && fresh(limitRecovery)
      ensures !Model().active && !Model().serialFault
    {
      config := c;
      armSequence := new ArmPowerOnSequence(c.required, c.precharge);
      limitRecovery := new StartupLimitRecovery();
      active, serialFault, enableFrameSent := false, false, false;
      safeHold := HoldCommand(Zeros(JOINTS), Zeros(HEAD));
      lastSent := HoldCommand(Zeros(JOINTS), Zeros(HEAD));
      headHold := Zeros(HEAD);
      elapsed, lastStamp, wakeups, stateFailures, commandFailures := 0.0, 0, 0, 0, 0;
      log, asked := [], [];
    }

    // ----- power-off -----

    method FailActiveCommand(queued: bool) returns (ok: bool)
      requires Valid()
      modifies this
      ensures Valid() && Model() == PowerDown(old(Model()), queued) && !ok
    {
      ok := false;
      active := false;
      safeHold := safeHold.(baseVelocity := Zeros(BASE), head := headHold);
      if queued {
        log := log + [PowerOffQueued];
      }
      asked := asked + [AsyncWritePowerOff];
    }

    // ----- lifecycle -----

    method OnConfigure(portOpen: bool) returns (ok: bool)
      requires Valid()
      modifies this, limitRecovery
      ensures Valid() && Model() == Configure(old(Model())) && ok == portOpen
    {
      serialFault, active := false, false;
      limitRecovery.Reset();
      headHold := Zeros(HEAD);
      elapsed, stateFailures, commandFailures := 0.0, 0, 0;
      ok := portOpen;
    }

    method OnCleanup()
      requires Valid()
      modifies this`active, limitRecovery
      ensures Valid() && Model() == CleanUp(old(Model()))
    {
      active := false;
      limitRecovery.Reset();
    }

    /** `written` is whether the power-off was written in time. */
    method OnDeactivate(queued: bool, written: bool) returns (ok: bool)
      requires Valid()
      modifies this, limitRecovery
      ensures Valid() && Model() == Halt(old(Model()), queued) && ok == (queued && written)
    {
      var _ := FailActiveCommand(queued);
      limitRecovery.Reset();
      ok := queued && written;
    }

    /** `on_error` does the same. */
    method OnShutdown(queued: bool) returns (ok: bool)
      requires Valid()
      modifies this, limitRecovery
      ensures Valid() && Model() == Halt(old(Model()), queued) && ok == queued
    {
      var _ := FailActiveCommand(queued);
      limitRecovery.Reset();
      ok := queued;
    }

    method HandleSerialError()
      requires Valid()
      modifies this`serialFault
      ensures Valid() && Model() == SerialError(old(Model()))
    {
      serialFault := true;
    }

    // ----- read -----

    method Read(i: ReadInput) returns (ok: bool)
      requires Valid() && i.Shaped()
      modifies this, armSequence, limitRecovery
      ensures Valid() && Model() == HardwareModel.Read(config, old(Model()), i)
      ensures ok == ReadOk(config, old(Model()), i)
    {
      if serialFault {
        if active {
          ok := FailActiveCommand(i.powerOffQueued);
        }
        return false;
      }
      if i.feedback.None? {
        return !active;
      }
      var stamped := i.feedback.value;
      if active && i.now - stamped.receivedAt > config.feedbackTimeout {
        ok := FailActiveCommand(i.powerOffQueued);
        return;
      }
      if active {
        Observe(stamped.usable);
      }
      ok := ReadState(stamped, i);
    }

    method Observe(usable: bool)
      requires Valid()
      modifies this`log, armSequence
      ensures Valid() && Model() == SeeFrame(config, old(Model()), usable)
    {
      var _ := armSequence.ObserveFeedback(usable);
      log := log + [Observed(usable)];
    }

    method ReadState(stamped: Feedback, i: ReadInput) returns (ok: bool)
      requires Valid() && stamped.Shaped() && !serialFault
      modifies this, limitRecovery
      ensures Valid() && Model() == ReadFrame(config, old(Model()), stamped, i)
      ensures ok == if old(active) then active else !serialFault && stateFailures <= MAX_ACCESS_FAILURES
    {
      if stamped.position.None? || stamped.head.None? {
        serialFault := true;
        ok := FailActiveCommand(i.powerOffQueued);
        return;
      }
      headHold := [stamped.head.value.0, stamped.head.value.1, headHold[2]];
      if !i.stored {
        stateFailures := stateFailures + 1;
        if stateFailures > MAX_ACCESS_FAILURES {
          ok := FailActiveCommand(i.powerOffQueued);
          return;
        }
        return true;
      }
      stateFailures := 0;
      ok := TakeState(stamped.position.value, stamped.sequence, i);
    }

    method TakeState(position: seq<Double>, feedback: nat, i: ReadInput) returns (ok: bool)
      requires Valid() && |position| == JOINTS
      modifies this, limitRecovery
      ensures Valid() && Model() == TakeMeasurement(config, old(Model()), position, feedback, i)
      ensures ok == (old(active) ==> active)
    {
      ok := true;
      if active && config.power {
        ok := UpdateRecovery(position, feedback, i.written);
        if !ok {
          ok := FailActiveCommand(i.powerOffQueued);
          return;
        }
      }
      safeHold := HoldCommand(position, headHold);
      log := log + [Held(position)];
      if active && config.power {
        var d := CheckAuxiliaryLimits(safeHold, config.limits);
        if !d.Ok() {
          ok := FailActiveCommand(i.powerOffQueued);
        }
      }
    }

    method UpdateRecovery(position: seq<Double>, feedback: nat, written: set<nat>) returns (ok: bool)
      requires Valid() && |position| == JOINTS
      modifies this`log, limitRecovery
      ensures Valid()
      ensures var s := old(Model()); var done := EntriesWritten(s.recovery, written);
        && ok == MeasureOk(s.recovery, position, config.limits, done, feedback)
        && Model() == s.(recovery := Measure(s.recovery, position, config.limits, done, feedback),
                         log := s.log + [Measured(feedback, position, written)])
    {
      var completed: seq<bool> := [];
      for joint := 0 to JOINTS
        invariant Valid() && |completed| == joint
        invariant forall j | 0 <= j < joint ::
          completed[j] == WriteCompleted(limitRecovery.entrySequences[j], written)
      {
        completed := completed + [WriteCompleted(limitRecovery.entrySequences[joint], written)];
      }
      assert completed == EntriesWritten(limitRecovery.Model(), written);
      var d := limitRecovery.UpdateMeasuredState(position, config.limits, completed, feedback);
      ok := d.Ok();
      log := log + [Measured(feedback, position, written)];
    }

    // ----- write -----

    method Write(i: WriteInput) returns (ok: bool)
      requires Valid() && i.Shaped()
      modifies this, armSequence, limitRecovery
      ensures Valid() && Model() == HardwareModel.Write(config, old(Model()), i)
      ensures ok == WriteOk(config, old(Model()), i)
    {
      if !active || !config.power {
        return true;
      }
      if serialFault || !i.open || i.period.NonFinite? || i.period.v <= 0.0 {
        ok := FailActiveCommand(i.powerOffQueued);
        return;
      }
      CountPeriod(i);
      ok := WriteCommand(i);
    }

    method CountPeriod(i: WriteInput)
      requires Valid() && i.period.Finite?
      modifies this`elapsed, this`log, this`commandFailures
      ensures Valid() && Model() == AddPeriod(old(Model()), i)
    {
      elapsed := elapsed + i.period.v;
      log := log + [Elapsed(i.period.v)];
      commandFailures := if i.command.None? then commandFailures + 1 else 0;
    }

    method WriteCommand(i: WriteInput) returns (ok: bool)
      requires Valid() && i.Shaped() && active
      modifies this, armSequence, limitRecovery
      ensures Valid() && Model() == Pass(config, old(Model()), i) && ok == active
    {
      if i.command.None? {
        if commandFailures > MAX_ACCESS_FAILURES {
          ok := FailActiveCommand(i.powerOffQueued);
          return;
        }
        return true;
      }
      var d := limitRecovery.Validate(i.command.value, lastSent, config.limits);
      if !d.Ok() {
        ok := FailActiveCommand(i.powerOffQueued);
        return;
      }
      if i.now - lastStamp < config.commandPeriod {
        return true;
      }
      if wakeups > 0 {
        ok := SendWakeup(i);
        return;
      }
      ok := SendCommandFrame(i);
    }

    method SendWakeup(i: WriteInput) returns (ok: bool)
      requires Valid() && active && wakeups > 0
      modifies this
      ensures Valid() && ok == active
      ensures var w := Ask(old(Model()).(wakeups := old(wakeups) - 1), true);
        Model() == if i.wakeupQueued then w.(lastStamp := i.now)
                   else PowerDown(w.(serialFault := true), i.powerOffQueued)
    {
      wakeups := wakeups - 1;
      asked := asked + [AsyncWrite];
      if !i.wakeupQueued {
        serialFault := true;
        ok := FailActiveCommand(i.powerOffQueued);
        return;
      }
      lastStamp := i.now;
      return true;
    }

    method SendCommandFrame(i: WriteInput) returns (ok: bool)
      requires Valid() && i.command.Some? && i.command.value.Shaped() && active
      modifies this, armSequence, limitRecovery
      ensures Valid() && Model() == WriteFrame(config, old(Model()), i) && ok == active
    {
      var limited;
      ok, limited := LimitCommandStep(i.command.value, lastSent, config.limits, Finite(elapsed));
      if !ok || i.safetyPower.None? || i.safetyPower.value.NonFinite? {
        ok := FailActiveCommand(i.powerOffQueued);
        return;
      }
      var requested := i.safetyPower.value.v >= 0.5;
      SettlePowerRequest(requested, i);
      ok := QueueCommandFrame(DecideFrame(requested, armSequence.stage), limited, i);
    }

    method SettlePowerRequest(requested: bool, i: WriteInput)
      requires Valid()
      modifies this`log, this`enableFrameSent, armSequence
      ensures Valid() && Model() == SettlePower(config, old(Model()), requested, i)
    {
      if !requested {
        armSequence.Reset();
        enableFrameSent := false;
        log := log + [SequenceReset];
        return;
      }
      var done := armSequence.IsPrechargeCompleted(
        i.now, WriteCompleted(armSequence.pendingPrechargeSequence, i.written));
      if done {
        armSequence.MarkArmsEnabled();
        enableFrameSent := false;
      }
    }

    method QueueCommandFrame(kind: FrameKind, limited: Command, i: WriteInput) returns (ok: bool)
      requires Valid() && limited.Shaped() && active
      modifies this, armSequence, limitRecovery
      ensures Valid() && Model() == QueueFrame(config, old(Model()), kind, limited, i) && ok == active
    {
      var hold := kind == EnabledFrame && !enableFrameSent;
      var frame := limited;
      if hold {
        frame := HoldCommand(safeHold.position, safeHold.head);
        enableFrameSent := true;
      }
      if !i.encoded {
        ok := FailActiveCommand(i.powerOffQueued);
        return;
      }
      ok := HandOverFrame(kind, frame, hold, i);
    }

    method HandOverFrame(kind: FrameKind, frame: Command, hold: bool, i: WriteInput) returns (ok: bool)
      requires Valid() && frame.Shaped() && active
      modifies this, armSequence, limitRecovery
      ensures Valid() && ok == active
      ensures var s := Ask(old(Model()), true);
        Model() == if i.sequence == 0 then PowerDown(s.(serialFault := true), i.powerOffQueued)
                   else Recorded(config, s, kind, frame, hold, i)
    {
      asked := asked + [AsyncWrite];
      if i.sequence == 0 {
        serialFault := true;
        ok := FailActiveCommand(i.powerOffQueued);
        return;
      }
      RecordFrame(kind, frame, hold, i);
      return true;
    }

    method RecordFrame(kind: FrameKind, frame: Command, hold: bool, i: WriteInput)
      requires Valid() && frame.Shaped()
      modifies this`headHold, this`lastStamp, this`lastSent, this`elapsed, this`log, armSequence, limitRecovery
      ensures Valid()
      ensures Model() == Recorded(config, old(Model()), kind, frame, hold, i)
    {
      ghost var directions := Directions(limitRecovery.Model());
      NoteFrame(kind, frame, i);
      log := log + [Queued(FlagOf(kind), i.now, i.sequence, frame, lastSent, true, hold, directions, i.written)];
      headHold := frame.head;
      lastStamp := i.now;
      lastSent := frame;
      elapsed := 0.0;
    }

    method NoteFrame(kind: FrameKind, frame: Command, i: WriteInput)
      requires Valid() && frame.Shaped()
      modifies armSequence, limitRecovery
      ensures limitRecovery.Valid()
      ensures armSequence.Model() ==
        if kind == PrechargeFrame then NotePrecharge(old(armSequence.Model()), i.sequence, i.now)
        else old(armSequence.Model())
      ensures limitRecovery.Model() ==
        if kind == EnabledFrame
        then NoteQueued(old(limitRecovery.Model()), frame, lastSent, config.limits, i.sequence)
        else old(limitRecovery.Model())
    {
      if kind == PrechargeFrame {
        var _ := armSequence.NotePrechargeQueued(i.sequence, i.now);
      } else if kind == EnabledFrame {
        limitRecovery.NoteCommandQueued(frame, lastSent, config.limits, i.sequence);
      }
    }

    // ----- activation -----

    method OnActivate(i: ActivationInput) returns (ok: bool)
      requires Valid() && i.Shaped()
      modifies this, armSequence, limitRecovery
      ensures Valid() && (Model(), ok) == Activate(config, old(Model()), i)
    {
      limitRecovery.Reset();
      armSequence.Reset();
      enableFrameSent := false;
      log, asked := [], [];
      assert Model() == Cleared(old(Model()));
      if config.power {
        var tick;
        ok, tick := PowerOn(i);
        if ok {
          ok := FinishActivation(tick.now, tick.written, i);
        }
      } else {
        ok := HoldUnpowered(i);
        if ok {
          ok := FinishActivation(i.polls[0].now, {}, i);
        }
      }
    }

    method FinishActivation(at: int, written: set<nat>, i: ActivationInput) returns (ok: bool)
      requires Valid()
      modifies this, armSequence
      ensures Valid() && (Model(), ok) == Finish(config, old(Model()), at, written, i)
    {
      if !i.encoded {
        return false;
      }
      if i.sequence == 0 {
        asked := asked + [AsyncWrite];
        return false;
      }
      StartRunning(at, written, i);
      ok := true;
    }

    method StartRunning(at: int, written: set<nat>, i: ActivationInput)
      requires Valid()
      modifies this, armSequence
      ensures Valid() && Model() == HandOver(config, old(Model()), at, written, i)
    {
      ghost var first := FirstFrame(config, Model(), at, written, i.sequence);
      lastStamp := i.stamp;
      lastSent := safeHold;
      elapsed, stateFailures, commandFailures := 0.0, 0, 0;
      active := true;
      wakeups := WAKEUP_FRAMES;
      log := log + [first];
      asked := asked + [AsyncWrite];
      if config.power {
        armSequence.MarkArmsEnabled();
      }
      assert limitRecovery.Model() == old(limitRecovery.Model());
    }

    method AdoptMeasuredHold(stamped: Feedback, stored: bool) returns (ok: bool)
      requires Valid() && stamped.Shaped()
      modifies this`headHold, this`safeHold, this`log
      ensures Valid() && (Model(), ok) == AdoptHold(old(Model()), stamped, stored)
    {
      if stamped.position.None? || stamped.head.None? {
        return false;
      }
      headHold := [stamped.head.value.0, stamped.head.value.1, Finite(0.0)];
      safeHold := HoldCommand(stamped.position.value, headHold);
      log := log + [Held(stamped.position.value)];
      ok := stored;
    }

    method HoldUnpowered(i: ActivationInput) returns (ok: bool)
      requires Valid() && i.Shaped()
      modifies this
      ensures Valid() && (Model(), ok) == HoldWithoutPower(config, old(Model()), i)
    {
      if i.polls == [] || i.polls[0].fault || i.polls[0].feedback.None? {
        return false;
      }
      var stamped := i.polls[0].feedback.value;
      if i.polls[0].now - stamped.receivedAt > config.feedbackTimeout {
        return false;
      }
      ok := AdoptMeasuredHold(stamped, i.stored);
    }

    method PowerOn(i: ActivationInput) returns (ok: bool, completing: Tick)
      requires Valid() && i.Shaped()
      modifies this, armSequence, limitRecovery
      ensures Valid()
      ensures (Model(), if ok then Some(completing) else None) == PowerOnWithReadyArms(config, old(Model()), i)
    {
      completing := Tick(0, {}, false, 0, false, None);
      var stamped;
      AwaitReadyChanges(config, Model(), i.polls, 0);
      ok, stamped := AwaitReadyArms(i.polls);
      if !ok {
        return;
      }
      ok := AdoptMeasuredHold(stamped, i.stored);
      if !ok {
        return;
      }
      var d := limitRecovery.Begin(safeHold, config.limits, config.tolerance);
      if !d.Ok() {
        return false, completing;
      }
      ok, completing := HoldPrecharge(i.startedAt, i.ticks);
    }

    method AwaitReadyArms(polls: seq<Poll>) returns (ok: bool, ready: Feedback)
      requires Valid() && forall k | 0 <= k < |polls| :: polls[k].Shaped()
      modifies this`log, armSequence
      ensures Valid()
      ensures (Model(), if ok then Some(ready) else None) == AwaitReady(config, old(Model()), polls, 0)
    {
      ok, ready := false, Feedback(0, 0, false, None, None);
      ghost var all := AwaitReady(config, Model(), polls, 0);
      var observed := 0;
      for k := 0 to |polls|
        invariant Valid() && !ok
        invariant AwaitReady(config, Model(), polls[k..], observed) == all
      {
        assert polls[k..][1..] == polls[k + 1..];
        var poll := polls[k];
        if poll.fault {
          return;
        }
        if poll.feedback.None? || poll.feedback.value.sequence == observed {
          continue;
        }
        var stamped := poll.feedback.value;
        observed := stamped.sequence;
        if poll.now - stamped.receivedAt > config.feedbackTimeout {
          continue;
        }
        var passed := armSequence.ObserveFeedback(stamped.usable);
        log := log + [Observed(stamped.usable)];
        if !passed {
          continue;
        }
        return true, stamped;
      }
    }

    method HoldPrecharge(startedAt: int, ticks: seq<Tick>) returns (ok: bool, completing: Tick)
      requires Valid()
      modifies this`log, this`asked, armSequence
      ensures Valid()
      ensures (Model(), if ok then Some(completing) else None)
           == StreamPrecharge(config, old(Model()), ticks, startedAt, 0)
    {
      ok, completing := false, Tick(0, {}, false, 0, false, None);
      ghost var all := StreamPrecharge(config, Model(), ticks, startedAt, 0);
      var nextAt, observed := startedAt, 0;
      for k := 0 to |ticks|
        invariant Valid() && !ok
        invariant StreamPrecharge(config, Model(), ticks[k..], nextAt, observed) == all
      {
        assert ticks[k..][1..] == ticks[k + 1..];
        var outcome := HoldPrechargeOnce(ticks[k], nextAt, observed);
        match outcome
        case Completed => return true, ticks[k];
        case Aborted => return;
        case Going(later, seen) => nextAt, observed := later, seen;
      }
    }

    method HoldPrechargeOnce(tick: Tick, nextAt: int, observed: nat) returns (outcome: Outcome)
      requires Valid()
      modifies this`log, this`asked, armSequence
      ensures Valid() && (Model(), outcome) == PrechargeTurn(config, old(Model()), tick, nextAt, observed)
    {
      var completed := armSequence.IsPrechargeCompleted(
        tick.now, WriteCompleted(armSequence.pendingPrechargeSequence, tick.written));
      if completed {
        return Completed;
      }
      var later := nextAt;
      if tick.now >= nextAt {
        if !tick.encoded {
          return Aborted;
        }
        asked := asked + [AsyncWrite];
        if tick.sequence == 0 {
          return Aborted;
        }
        log := log + [PrechargeEvent(Model(), tick)];
        var _ := armSequence.NotePrechargeQueued(tick.sequence, tick.now);
        later := tick.now + config.commandPeriod;
      }
      if tick.fault {
        return Aborted;
      }
      if tick.feedback.None? || tick.feedback.value.sequence == observed {
        return Going(later, observed);
      }
      var passed := armSequence.ObserveFeedback(tick.feedback.value.usable);
      log := log + [Observed(tick.feedback.value.usable)];
      if !passed {
        return Aborted;
      }
      return Going(later, tick.feedback.value.sequence);
    }
  }
}
