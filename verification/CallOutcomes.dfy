/** What one `read` or `write` does, said of the fields and of what the call is told, in numbers: when
    it faults, what it records, and which frame it queues. */
module CallOutcomes {
  import opened CommandMailbox
  import opened Doubles
  import opened CommandSafety
  import opened ArmPowerOn
  import opened HardwareModel
  import opened HardwareSteps
  import HardwareSafety

  // ----- positions -----

  function Slack(joint: Joint): real {
    if joint.tolerance.Finite? && joint.tolerance.v >= 0.0 then joint.tolerance.v else 0.0
  }

  predicate Ordered(lower: Double, upper: Double) {
    lower.Finite? && upper.Finite? && lower.v <= upper.v
  }

  /** A settled joint must be read within its widened limits, a recovering one anywhere. */
  predicate Readable(value: Double, lower: Double, upper: Double, joint: Joint) {
    && value.Finite? && Ordered(lower, upper)
    && (joint.direction == Settled ==> lower.v - Slack(joint) <= value.v <= upper.v + Slack(joint))
  }

  /** A settled joint may be sent anywhere within its widened limits, a recovering one only inward. */
  predicate Commandable(value: Double, prior: Double, lower: Double, upper: Double, joint: Joint) {
    && value.Finite? && prior.Finite? && Ordered(lower, upper)
    && (joint.direction == Settled ==> lower.v - Slack(joint) <= value.v <= upper.v + Slack(joint))
    && (joint.direction == Increasing ==> prior.v <= value.v <= upper.v)
    && (joint.direction == Decreasing ==> lower.v <= value.v <= prior.v)
  }

  predicate HeadReachable(value: Double, lower: Double, upper: Double) {
    value.Finite? && Ordered(lower, upper) && lower.v - 0.01 <= value.v <= upper.v + 0.01
  }

  // ----- read -----

  ghost predicate FrameIsGood(c: Config, s: Hardware, f: Feedback, i: ReadInput)
    requires c.Shaped() && s.Shaped() && f.Shaped()
  {
    && i.now - f.receivedAt <= c.feedbackTimeout && f.position.Some? && f.head.Some?
    && if !i.stored then s.stateFailures < 10
       else c.power ==>
              && (forall j | 0 <= j < 17 ::
                    Readable(f.position.value[j], c.limits.lower[j], c.limits.upper[j], s.recovery[j]))
              && HeadReachable(f.head.value.0, c.limits.headLower[0], c.limits.headUpper[0])
              && HeadReachable(f.head.value.1, c.limits.headLower[1], c.limits.headUpper[1])
              && HeadReachable(s.headHold[2], c.limits.headLower[2], c.limits.headUpper[2])
  }

  ghost predicate ReadIsGood(c: Config, s: Hardware, i: ReadInput)
    requires c.Shaped() && s.Shaped() && i.Shaped()
  {
    !s.serialFault && (i.feedback.Some? ==> FrameIsGood(c, s, i.feedback.value, i))
  }

  lemma MeasureOkIff(c: Config, s: Hardware, position: seq<Double>, written: seq<bool>, feedback: nat)
    requires c.Shaped() && |position| == JOINTS && |written| == JOINTS
    ensures MeasureOk(s.recovery, position, c.limits, written, feedback) <==>
      forall j | 0 <= j < 17 :: Readable(position[j], c.limits.lower[j], c.limits.upper[j], s.recovery[j])
  {
    forall j: nat | j < JOINTS
      ensures MeasureAt(s.recovery, position, c.limits, written, feedback, j).Kept? <==>
        Readable(position[j], c.limits.lower[j], c.limits.upper[j], s.recovery[j])
    {}
  }

  lemma HoldReachableIff(c: Config, hold: Command)
    requires c.Shaped() && hold.Shaped() && hold.baseVelocity == Zeros(BASE)
    ensures AuxiliaryOk(hold, c.limits) <==>
      && HeadReachable(hold.head[0], c.limits.headLower[0], c.limits.headUpper[0])
      && HeadReachable(hold.head[1], c.limits.headLower[1], c.limits.headUpper[1])
      && HeadReachable(hold.head[2], c.limits.headLower[2], c.limits.headUpper[2])
  {}

  /** The frame's record: what was seen, and what was taken over. */
  ghost function Seen(c: Config, f: Feedback, i: ReadInput): seq<Event>
    requires f.position.Some?
  {
    [Observed(f.usable)] +
      if !i.stored then []
      else (if c.power then [Measured(f.sequence, f.position.value, i.written)] else []) + [Held(f.position.value)]
  }

  /** The hold that a power-off frame carries: no base motion, the head as last known. */
  ghost predicate HoldsStill(t: Hardware) {
    && |t.safeHold.baseVelocity| == 3 && (forall k | 0 <= k < 3 :: t.safeHold.baseVelocity[k] == Finite(0.0))
    && t.safeHold.head == t.headHold
  }

  ghost predicate Deactivated(s: Hardware, t: Hardware, queued: bool) {
    && !t.active && t.asked == s.asked + [AsyncWritePowerOff] && HoldsStill(t)
    && (queued ==> t.log != [] && t.log[|t.log| - 1] == PowerOffQueued)
  }

  lemma FrameOutcome(c: Config, s: Hardware, f: Feedback, i: ReadInput)
    requires c.Shaped() && s.Shaped() && f.Shaped() && s.active && !s.serialFault
    requires i.now - f.receivedAt <= c.feedbackTimeout
    ensures var t := ReadFrame(c, SeeFrame(c, s, f.usable), f, i);
      if FrameIsGood(c, s, f, i) then t.active && t.asked == s.asked else Deactivated(s, t, i.powerOffQueued)
  {
    if f.position.Some? && f.head.Some? && i.stored {
      MeasureOkIff(c, s, f.position.value, EntriesWritten(s.recovery, i.written), f.sequence);
      HoldReachableIff(c, HoldCommand(f.position.value, [f.head.value.0, f.head.value.1, s.headHold[2]]));
    }
  }

  /** An active hardware stays active in `read` exactly when there is no serial fault and the feedback,
      if any, is good; otherwise it ends inactive and asks for a power-off. */
  lemma ReadStaysActiveIff(c: Config, s: Hardware, i: ReadInput)
    requires c.Shaped() && s.Shaped() && i.Shaped() && s.active
    ensures var t := Read(c, s, i);
      if ReadIsGood(c, s, i) then t.active && t.asked == s.asked else Deactivated(s, t, i.powerOffQueued)
    ensures ReadOk(c, s, i) <==> ReadIsGood(c, s, i) && i.feedback.Some?
  {
    if !s.serialFault && i.feedback.Some? && i.now - i.feedback.value.receivedAt <= c.feedbackTimeout {
      FrameOutcome(c, s, i.feedback.value, i);
    }
  }

  lemma GoodFrameRecords(c: Config, s: Hardware, f: Feedback, i: ReadInput)
    requires c.Shaped() && s.Shaped() && f.Shaped() && s.active && !s.serialFault && FrameIsGood(c, s, f, i)
    ensures var t := ReadFrame(c, SeeFrame(c, s, f.usable), f, i);
      && t.log == s.log + Seen(c, f, i)
      && t.headHold == [f.head.value.0, f.head.value.1, s.headHold[2]]
      && t.safeHold == (if i.stored then HoldCommand(f.position.value, t.headHold) else s.safeHold)
      && t.lastSent == s.lastSent && t.elapsed == s.elapsed && t.lastStamp == s.lastStamp && t.wakeups == s.wakeups
      && t.stateFailures == (if i.stored then 0 else s.stateFailures + 1)
  {
    if i.stored {
      MeasureOkIff(c, s, f.position.value, EntriesWritten(s.recovery, i.written), f.sequence);
      HoldReachableIff(c, HoldCommand(f.position.value, [f.head.value.0, f.head.value.1, s.headHold[2]]));
    }
  }

  /** A good frame is recorded and becomes the new hold; without feedback nothing changes; and a fresh
      frame is observed even if the call then faults. */
  lemma ReadRecords(c: Config, s: Hardware, i: ReadInput)
    requires c.Shaped() && s.Shaped() && i.Shaped() && s.active && !s.serialFault
    ensures var t := Read(c, s, i);
      match i.feedback
      case None => t == s
      case Some(f) =>
        && (i.now - f.receivedAt <= c.feedbackTimeout ==> s.log + [Observed(f.usable)] <= t.log)
        && (FrameIsGood(c, s, f, i) ==>
              && t.log == s.log + Seen(c, f, i)
              && t.headHold == [f.head.value.0, f.head.value.1, s.headHold[2]]
              && t.safeHold == if i.stored then HoldCommand(f.position.value, t.headHold) else s.safeHold)
  {
    if i.feedback.Some? && FrameIsGood(c, s, i.feedback.value, i) {
      GoodFrameRecords(c, s, i.feedback.value, i);
    }
  }

  // ----- write -----

  ghost predicate CommandIsGood(c: Config, s: Hardware, command: Command)
    requires c.Shaped() && s.Shaped() && command.Shaped()
  {
    && (forall j | 0 <= j < 17 ::
          Commandable(command.position[j], s.lastSent.position[j], c.limits.lower[j], c.limits.upper[j], s.recovery[j]))
    && (forall i | 0 <= i < 3 ::
          command.baseVelocity[i].Finite? && HeadReachable(command.head[i], c.limits.headLower[i], c.limits.headUpper[i]))
  }

  ghost predicate Moves(values: seq<Double>, priors: seq<Double>, velocities: seq<Double>) {
    && |values| == |priors| == |velocities|
    && forall j | 0 <= j < |values| ::
         values[j].Finite? && priors[j].Finite? && velocities[j].Finite? && velocities[j].v > 0.0
  }

  /** Everything a frame needs once the command itself is good. */
  ghost predicate FrameCanGo(c: Config, s: Hardware, i: WriteInput)
    requires c.Shaped() && s.Shaped() && i.Shaped() && i.command.Some? && i.period.Finite?
  {
    && s.elapsed + i.period.v > 0.0
    && Moves(i.command.value.position, s.lastSent.position, c.limits.velocity)
    && Moves(i.command.value.head, s.lastSent.head, c.limits.headVelocity)
    && i.safetyPower.Some? && i.safetyPower.value.Finite? && i.encoded && i.sequence != 0
  }

  ghost predicate Due(c: Config, s: Hardware, i: WriteInput) {
    i.command.Some? && i.now - s.lastStamp >= c.commandPeriod
  }

  ghost predicate WriteIsGood(c: Config, s: Hardware, i: WriteInput)
    requires c.Shaped() && s.Shaped() && i.Shaped()
  {
    && !s.serialFault && i.open && i.period.Finite? && i.period.v > 0.0
    && (i.command.None? ==> s.commandFailures < 10)
    && (i.command.Some? ==> CommandIsGood(c, s, i.command.value))
    && (Due(c, s, i) ==> if s.wakeups > 0 then i.wakeupQueued else FrameCanGo(c, s, i))
  }

  lemma ValidateOkIff(c: Config, s: Hardware, command: Command)
    requires c.Shaped() && s.Shaped() && command.Shaped()
    ensures ValidateOk(s.recovery, command, s.lastSent, c.limits) <==> CommandIsGood(c, s, command)
  {
    forall j: nat | j < JOINTS
      ensures
        Commandable(command.position[j], s.lastSent.position[j], c.limits.lower[j], c.limits.upper[j], s.recovery[j])
        <==> ValidateJoint(command.position[j], s.lastSent.position[j], c.limits.lower[j], c.limits.upper[j],
                           s.recovery[j]) == NoFailure
    {}
  }

  lemma MovesIff(values: seq<Double>, priors: seq<Double>, velocities: seq<Double>)
    ensures StepsOk(values, priors, velocities) <==> Moves(values, priors, velocities)
  {}

  lemma StepLimitOkIff(c: Config, s: Hardware, i: WriteInput)
    requires c.Shaped() && s.Shaped() && i.Shaped() && i.command.Some? && i.period.Finite?
    ensures FrameCanGo(c, s, i) <==>
      && StepLimitOk(i.command.value, s.lastSent, c.limits, Finite(s.elapsed + i.period.v))
      && i.safetyPower.Some? && i.safetyPower.value.Finite? && i.encoded && i.sequence != 0
  {
    MovesIff(i.command.value.position, s.lastSent.position, c.limits.velocity);
    MovesIff(i.command.value.head, s.lastSent.head, c.limits.headVelocity);
  }

  lemma FrameOutcomeIff(c: Config, s: Hardware, i: WriteInput)
    requires c.Shaped() && s.Shaped() && i.Shaped() && s.active && i.command.Some? && i.period.Finite?
    ensures var t := WriteFrame(c, AddPeriod(s, i), i);
      if FrameCanGo(c, s, i) then t.active else !t.active
  {
    StepLimitOkIff(c, s, i);
  }

  /** An active, powered hardware stays active in `write` exactly when there is no fault, the port is
      open, the period is usable, the command can be read and is good, and a frame that is due can go. */
  lemma WriteStaysActiveIff(c: Config, s: Hardware, i: WriteInput)
    requires c.Shaped() && s.Shaped() && i.Shaped() && s.active && c.power
    ensures Write(c, s, i).active <==> WriteIsGood(c, s, i)
    ensures WriteOk(c, s, i) <==> WriteIsGood(c, s, i)
  {
    if i.command.Some? && i.period.Finite? {
      ValidateOkIff(c, s, i.command.value);
      FrameOutcomeIff(c, s, i);
    }
  }

  lemma FaultingWritePowersDown(c: Config, s: Hardware, i: WriteInput)
    requires c.Shaped() && s.Shaped() && i.Shaped() && s.active && !Write(c, s, i).active
    ensures var t := Write(c, s, i);
      && (t.asked == s.asked + [AsyncWritePowerOff] || t.asked == s.asked + [AsyncWrite] + [AsyncWritePowerOff])
      && HoldsStill(t)
      && (i.powerOffQueued ==> t.log != [] && t.log[|t.log| - 1] == PowerOffQueued)
  {
    HardwareSafety.WritePowersDown(c, s, i);
    if i.period.Finite? && i.command.Some? && !WriteFrame(c, AddPeriod(s, i), i).active {
      FaultingFrameAsks(c, AddPeriod(s, i), i);
      FaultingFrameHolds(c, AddPeriod(s, i), i);
    }
  }

  lemma FaultingFrameAsks(c: Config, s: Hardware, i: WriteInput)
    requires c.Shaped() && s.Shaped() && i.command.Some? && i.command.value.Shaped() && !WriteFrame(c, s, i).active
    requires s.active
    ensures var t := WriteFrame(c, s, i);
      t.asked == s.asked + [AsyncWritePowerOff] || t.asked == s.asked + [AsyncWrite] + [AsyncWritePowerOff]
  {}

  lemma FaultingFrameHolds(c: Config, s: Hardware, i: WriteInput)
    requires c.Shaped() && s.Shaped() && i.command.Some? && i.command.value.Shaped() && !WriteFrame(c, s, i).active
    requires s.active
    ensures HoldsStill(WriteFrame(c, s, i))
  {}

  // ----- the frame -----

  /** The arms are enabled, or their precharge is over. */
  ghost predicate MayEnable(c: Config, s: Hardware, i: WriteInput) {
    || s.arm.stage == Enabled
    || (s.arm.stage == AwaitingCompletion && s.arm.latestReady && s.arm.pending != 0 && s.arm.pending in i.written
        && i.now - s.arm.startedAt >= c.precharge)
  }

  /** As far towards the commanded value as the velocity allows in that time, and not past it. */
  predicate Approaches(value: Double, prior: Double, velocity: Double, time: real, r: Double) {
    && value.Finite? && prior.Finite? && velocity.Finite? && r.Finite?
    && (prior.v <= r.v <= value.v || value.v <= r.v <= prior.v)
    && Abs(r.v - prior.v) <= velocity.v * time
    && (r.v == value.v || Abs(r.v - prior.v) == velocity.v * time)
  }

  ghost predicate FollowsCommand(c: Config, s: Hardware, command: Command, time: real, frame: Command)
    requires c.Shaped() && s.Shaped() && command.Shaped() && frame.Shaped()
  {
    && (forall j | 0 <= j < 17 ::
          Approaches(command.position[j], s.lastSent.position[j], c.limits.velocity[j], time, frame.position[j]))
    && (forall j | 0 <= j < 3 ::
          Approaches(command.head[j], s.lastSent.head[j], c.limits.headVelocity[j], time, frame.head[j]))
    && frame.baseVelocity == command.baseVelocity
  }

  /** The queued frame: no power request, power-off; else enabled if the arms may be, else precharge. The
      first enabled frame holds the measurement, every other follows the command. */
  ghost predicate FrameIs(c: Config, s: Hardware, i: WriteInput, e: Event)
    requires c.Shaped() && s.Shaped() && i.Shaped() && i.command.Some? && i.period.Finite?
    requires i.safetyPower.Some? && i.safetyPower.value.Finite?
  {
    && e.Queued? && e.byWrite && e.sequence == i.sequence && e.at == i.now && e.written == i.written
    && e.previous == s.lastSent && e.frame.Shaped()
    && e.flag == (if i.safetyPower.value.v < 0.5 then 0x00 else if MayEnable(c, s, i) then 0x3D else 0x25)
    && e.hold == (e.flag == 0x3D && !(s.arm.stage == Enabled && s.enableSent))
    && (e.hold ==>
          && e.frame.position == s.safeHold.position && e.frame.head == s.safeHold.head
          && forall k | 0 <= k < 3 :: e.frame.baseVelocity[k] == Finite(0.0))
    && (!e.hold ==> FollowsCommand(c, s, i.command.value, s.elapsed + i.period.v, e.frame))
  }

  lemma LimitedFollows(c: Config, s: Hardware, command: Command, time: real)
    requires c.Shaped() && s.Shaped() && command.Shaped() && time > 0.0
    requires StepLimitOk(command, s.lastSent, c.limits, Finite(time))
    ensures FollowsCommand(c, s, command, time, LimitedCommand(command, s.lastSent, c.limits, time))
  {
    var limited := LimitedCommand(command, s.lastSent, c.limits, time);
    forall j: nat | j < 17
      ensures Approaches(command.position[j], s.lastSent.position[j], c.limits.velocity[j], time, limited.position[j])
    {
      LimitedStepStaysBetween(command.position[j], s.lastSent.position[j], c.limits.velocity[j], time);
    }
    forall j: nat | j < 3
      ensures Approaches(command.head[j], s.lastSent.head[j], c.limits.headVelocity[j], time, limited.head[j])
    {
      LimitedStepStaysBetween(command.head[j], s.lastSent.head[j], c.limits.headVelocity[j], time);
    }
  }

  lemma SentIs(c: Config, s: Hardware, i: WriteInput)
    requires c.Shaped() && s.Shaped() && i.Shaped() && s.active && c.power && WriteIsGood(c, s, i)
    requires Due(c, s, i) && s.wakeups == 0
    ensures var p := AddPeriod(s, i); Sends(c, p, i) && FrameIs(c, s, i, Sent(c, p, i))
  {
    ValidateOkIff(c, s, i.command.value);
    StepLimitOkIff(c, s, i);
    LimitedFollows(c, s, i.command.value, s.elapsed + i.period.v);
  }

  /** A good `write` adds its period. When a frame is due it hands over a wakeup frame while there are
      some left, and then its frame, which is recorded. */
  lemma WriteRecords(c: Config, s: Hardware, i: WriteInput)
    requires c.Shaped() && s.Shaped() && i.Shaped() && s.active && c.power && WriteIsGood(c, s, i)
    ensures var t := Write(c, s, i); var due := Due(c, s, i);
      && t.asked == s.asked + (if due then [AsyncWrite] else [])
      && t.wakeups == (if due && s.wakeups > 0 then s.wakeups - 1 else s.wakeups)
      && t.commandFailures == (if i.command.None? then s.commandFailures + 1 else 0)
      && t.lastStamp == (if due then i.now else s.lastStamp)
      && if due && s.wakeups == 0 then
           && t.log != [] && FrameIs(c, s, i, t.log[|t.log| - 1]) && t.lastSent == t.log[|t.log| - 1].frame
           && t.elapsed == 0.0 && t.headHold == t.log[|t.log| - 1].frame.head
           && t.log[..|t.log| - 1] == s.log + [Elapsed(i.period.v)] +
                if i.safetyPower.value.v < 0.5 then [SequenceReset] else []
         else
           && t.log == s.log + [Elapsed(i.period.v)] && t.lastSent == s.lastSent && t.headHold == s.headHold
           && t.elapsed == s.elapsed + i.period.v
  {
    if i.command.Some? {
      ValidateOkIff(c, s, i.command.value);
    }
    if Due(c, s, i) && s.wakeups == 0 {
      var p := AddPeriod(s, i);
      SentIs(c, s, i);
      SendFacts(c, p, i);
      SendEffects(c, p, i);
      assert Write(c, s, i) == WriteFrame(c, p, i);
      SentAsks(c, p, i);
    } else {
      assert s.asked + [] == s.asked;
    }
  }

  lemma SentAsks(c: Config, s: Hardware, i: WriteInput)
    requires c.Shaped() && s.Shaped() && s.active && Sends(c, s, i)
    ensures var t := WriteFrame(c, s, i);
      t.asked == s.asked + [AsyncWrite] && t.lastStamp == i.now && t.wakeups == s.wakeups
      && t.commandFailures == s.commandFailures
  {}

  // ----- lifecycle -----

  ghost predicate NothingRecovers(r: Recovery) {
    forall j | 0 <= j < 17 :: r[j].direction == Settled && r[j].entry == 0
  }

  /** Deactivation, shutdown and errors end inactive with a power-off asked for; configuring clears the
      fault and asks for nothing; all of them forget the recovery. */
  lemma LifecycleEndsInactive(s: Hardware, queued: bool)
    requires s.Shaped()
    ensures Deactivated(s, Halt(s, queued), queued) && NothingRecovers(Halt(s, queued).recovery)
    ensures var t := Configure(s);
      && !t.active && !t.serialFault && NothingRecovers(t.recovery) && t.asked == s.asked && t.log == s.log
      && t.stateFailures == 0 == t.commandFailures && t.elapsed == 0.0
      && forall k | 0 <= k < 3 :: t.headHold[k] == Finite(0.0)
    ensures var t := CleanUp(s);
      !t.active && NothingRecovers(t.recovery) && t.asked == s.asked && t.log == s.log && t.serialFault == s.serialFault
  {}

  // ----- serial errors -----

  lemma FaultStays(c: Config, s: Hardware, i: Input)
    requires c.Shaped() && s.Shaped() && i.Shaped() && s.serialFault
    ensures Step(c, s, i).serialFault
  {}

  lemma {:induction false} FaultStaysRun(c: Config, s: Hardware, inputs: seq<Input>, k: nat)
    requires c.Shaped() && s.Shaped() && AllShaped(inputs) && k < |inputs| && inputs[k].ErrorIn?
    ensures After(c, s, inputs).serialFault
    decreases |inputs|
  {
    var init, last := inputs[..|inputs| - 1], inputs[|inputs| - 1];
    if k < |init| {
      FaultStaysRun(c, s, init, k);
      FaultStays(c, After(c, s, init), last);
    }
  }

  /** The first `read`, or powered `write`, after a serial error leaves the hardware inactive, however
      many calls there were in between. */
  lemma ErrorDeactivates(c: Config, s: Hardware, inputs: seq<Input>, k: nat, last: Input)
    requires c.Shaped() && s.Shaped() && AllShaped(inputs) && k < |inputs| && inputs[k].ErrorIn? && last.Shaped()
    requires last.ReadIn? || (last.WriteIn? && c.power)
    ensures !Step(c, After(c, s, inputs), last).active
  {
    FaultStaysRun(c, s, inputs, k);
    var u := After(c, s, inputs);
    if u.active {
      match last
      case ReadIn(read) => ReadStaysActiveIff(c, u, read);
      case WriteIn(write) => WriteStaysActiveIff(c, u, write);
    } else {
      HardwareSafety.InactiveStep(c, u, last);
    }
  }
}
