/** Which positions `write` can send: inside the limits widened by the startup tolerance, unless a
    hold frame repeats an out-of-range measurement of a joint that is still recovering. */
module LimitKeeping {
  import opened CommandMailbox
  import opened Doubles
  import opened CommandSafety
  import opened ArmPowerOn
  import opened HardwareModel
  import opened HardwareSteps
  import opened PowerTrace

  // ----- what is kept -----

  ghost predicate InRange(c: Config, j: nat, value: Double)
    requires c.Shaped() && j < JOINTS
  {
    && value.Finite? && c.tolerance[j].Finite? && c.limits.lower[j].Finite? && c.limits.upper[j].Finite?
    && c.limits.lower[j].v - c.tolerance[j].v <= value.v <= c.limits.upper[j].v + c.tolerance[j].v
  }

  ghost predicate PositionInRange(c: Config, position: seq<Double>)
    requires c.Shaped()
  {
    |position| == JOINTS && forall j | 0 <= j < JOINTS :: InRange(c, j, position[j])
  }

  /** A hold frame of a recovering joint repeats a measurement that is in range. */
  ghost predicate HoldInRange(c: Config, e: Event)
    requires c.Shaped()
  {
    e.Queued? && e.byWrite && e.hold ==>
      && |e.frame.position| == JOINTS
      && forall j | 0 <= j < JOINTS && j < |e.directions| && e.directions[j] != Settled :: InRange(c, j, e.frame.position[j])
  }

  ghost predicate FrameInRange(c: Config, e: Event)
    requires c.Shaped()
  {
    e.Queued? && e.byWrite ==> PositionInRange(c, e.frame.position)
  }

  ghost predicate HoldsInRange(c: Config, log: seq<Event>)
    requires c.Shaped()
  {
    log != [] ==> HoldsInRange(c, log[..|log| - 1]) && HoldInRange(c, log[|log| - 1])
  }

  ghost predicate FramesInRange(c: Config, log: seq<Event>)
    requires c.Shaped()
  {
    log != [] ==> FramesInRange(c, log[..|log| - 1]) && FrameInRange(c, log[|log| - 1])
  }

  /** Inward, and not past the hard limit on the other side. */
  ghost predicate Inward(direction: Direction, value: Double, prior: Double, lower: Double, upper: Double) {
    && value.Finite? && prior.Finite? && lower.Finite? && upper.Finite?
    && (direction == Decreasing ==> lower.v <= value.v <= prior.v)
    && (direction == Increasing ==> prior.v <= value.v <= upper.v)
  }

  ghost predicate InwardFrame(c: Config, log: seq<Event>, e: Event)
    requires c.Shaped()
  {
    e.Queued? && e.byWrite && !e.hold ==>
      && e.frame.Shaped() && |e.directions| == JOINTS
      && NewestFrame(log).Some?
      && var q := log[NewestFrame(log).value];
         && q.Queued? && q.frame.Shaped()
         && forall j | 0 <= j < JOINTS ::
              Inward(e.directions[j], e.frame.position[j], q.frame.position[j],
                     c.limits.lower[j], c.limits.upper[j])
  }

  ghost predicate InwardTrace(c: Config, log: seq<Event>)
    requires c.Shaped()
  {
    log != [] ==>
      InwardTrace(c, log[..|log| - 1]) && InwardFrame(c, log[..|log| - 1], log[|log| - 1])
  }

  lemma Appended(c: Config, log: seq<Event>, e: Event)
    requires c.Shaped()
    ensures HoldsInRange(c, log + [e]) == (HoldsInRange(c, log) && HoldInRange(c, e))
    ensures FramesInRange(c, log + [e]) == (FramesInRange(c, log) && FrameInRange(c, e))
    ensures InwardTrace(c, log + [e]) == (InwardTrace(c, log) && InwardFrame(c, log, e))
    ensures NewestFrame(log + [e]) == if IsFrame(e) then Some(|log|) else NewestFrame(log)
  {
    assert (log + [e])[..|log|] == log;
  }

  lemma {:induction false} InwardAt(c: Config, log: seq<Event>, k: nat)
    requires c.Shaped() && InwardTrace(c, log) && k < |log|
    ensures InwardFrame(c, log[..k], log[k])
    decreases |log|
  {
    if k < |log| - 1 {
      InwardAt(c, log[..|log| - 1], k);
      assert log[..|log| - 1][..k] == log[..k];
    }
  }

  // ----- one joint -----

  lemma LimitedJointInRange(value: Double, prior: Double, velocity: Double, elapsed: real,
                            lower: Double, upper: Double, joint: Joint)
    requires ValidateJoint(value, prior, lower, upper, joint) == NoFailure
    requires StepOk(value, prior, velocity) && elapsed > 0.0
    requires joint.tolerance.Finite? && joint.tolerance.v >= 0.0
    ensures var r := LimitStep(value, prior, velocity, elapsed);
      && r.Finite? && Inward(joint.direction, r, prior, lower, upper)
      && (lower.v - joint.tolerance.v <= prior.v <= upper.v + joint.tolerance.v ==>
            lower.v - joint.tolerance.v <= r.v <= upper.v + joint.tolerance.v)
  {
    LimitedStepStaysBetween(value, prior, velocity, elapsed);
  }

  // ----- the invariant -----

  ghost predicate Guarded(c: Config, recovery: Recovery)
    requires c.Shaped()
  {
    forall j | 0 <= j < JOINTS ::
      recovery[j].tolerance == c.tolerance[j] && c.tolerance[j].Finite? && c.tolerance[j].v >= 0.0
  }

  ghost predicate SettledInRange(c: Config, recovery: Recovery, hold: seq<Double>)
    requires c.Shaped()
  {
    |hold| == JOINTS && forall j | 0 <= j < JOINTS && recovery[j].direction == Settled :: InRange(c, j, hold[j])
  }

  ghost predicate Remembers(log: seq<Event>, lastSent: Command) {
    && NewestFrame(log).Some?
    && var q := log[NewestFrame(log).value];
       q.Queued? && q.frame == lastSent
  }

  ghost predicate LogOk(c: Config, log: seq<Event>)
    requires c.Shaped()
  {
    InwardTrace(c, log) && (HoldsInRange(c, log) ==> FramesInRange(c, log))
  }

  ghost predicate Inv(c: Config, s: Hardware)
    requires c.Shaped()
  {
    && LogOk(c, s.log)
    && (s.active && c.power ==>
          && Guarded(c, s.recovery) && SettledInRange(c, s.recovery, s.safeHold.position)
          && Remembers(s.log, s.lastSent)
          && (HoldsInRange(c, s.log) ==> PositionInRange(c, s.lastSent.position)))
  }

  lemma NeutralAppend(c: Config, log: seq<Event>, e: Event, lastSent: Command)
    requires c.Shaped() && !IsFrame(e) && LogOk(c, log)
    ensures LogOk(c, log + [e]) && (HoldsInRange(c, log + [e]) == HoldsInRange(c, log))
    ensures Remembers(log, lastSent) ==> Remembers(log + [e], lastSent)
  {
    Appended(c, log, e);
  }

  lemma {:induction false} QuietKeepsLog(c: Config, log: seq<Event>, later: seq<Event>)
    requires c.Shaped() && LogOk(c, log) && Quiet(log, later)
    ensures LogOk(c, later)
    decreases |later|
  {
    if |later| > |log| {
      var init := later[..|later| - 1];
      assert init[..|log|] == log;
      QuietKeepsLog(c, log, init);
    } else {
      assert later == log;
    }
  }

  // ----- measurements -----

  lemma MeasuredSettledInRange(c: Config, s: Hardware, position: seq<Double>, feedback: nat, written: set<nat>)
    requires c.Shaped() && s.Shaped() && |position| == JOINTS && Guarded(c, s.recovery)
    requires MeasureOk(s.recovery, position, c.limits, EntriesWritten(s.recovery, written), feedback)
    ensures var r := Measure(s.recovery, position, c.limits, EntriesWritten(s.recovery, written), feedback);
      Guarded(c, r) && SettledInRange(c, r, position)
  {
    var w := EntriesWritten(s.recovery, written);
    var r := Measure(s.recovery, position, c.limits, w, feedback);
    forall j | 0 <= j < JOINTS
      ensures r[j].tolerance == c.tolerance[j] && (r[j].direction == Settled ==> InRange(c, j, position[j]))
    {
      assert MeasureAt(s.recovery, position, c.limits, w, feedback, j).Kept?;
      assert r[j] == MeasureAt(s.recovery, position, c.limits, w, feedback, j).joint;
    }
  }

  lemma TakeKeepsInv(c: Config, s: Hardware, position: seq<Double>, feedback: nat, written: set<nat>)
    requires c.Shaped() && May(c, s, Take(position, feedback, written)) && Inv(c, s)
    ensures Inv(c, Adopt(c, s, position, feedback, written))
  {
    var t := Adopt(c, s, position, feedback, written);
    if c.power {
      var measured := Measured(feedback, position, written);
      MeasuredSettledInRange(c, s, position, feedback, written);
      NeutralAppend(c, s.log, measured, s.lastSent);
      NeutralAppend(c, s.log + [measured], Held(position), s.lastSent);
      assert t.log == s.log + [measured] + [Held(position)];
    } else {
      NeutralAppend(c, s.log, Held(position), s.lastSent);
      assert t.log == s.log + [Held(position)];
    }
  }

  // ----- frames -----

  lemma LimitedFrameInRange(c: Config, recovery: Recovery, command: Command, previous: Command, elapsed: real)
    requires c.Shaped() && command.Shaped() && previous.Shaped() && Guarded(c, recovery)
    requires ValidateOk(recovery, command, previous, c.limits)
    requires StepLimitOk(command, previous, c.limits, Finite(elapsed))
    ensures var p := LimitedCommand(command, previous, c.limits, elapsed).position;
      && (PositionInRange(c, previous.position) ==> PositionInRange(c, p))
      && |p| == JOINTS
      && forall j | 0 <= j < JOINTS ::
           Inward(recovery[j].direction, p[j], previous.position[j], c.limits.lower[j], c.limits.upper[j])
  {
    var p := LimitedCommand(command, previous, c.limits, elapsed).position;
    forall j | 0 <= j < JOINTS
      ensures Inward(recovery[j].direction, p[j], previous.position[j], c.limits.lower[j], c.limits.upper[j])
      ensures InRange(c, j, previous.position[j]) ==> InRange(c, j, p[j])
    {
      LimitedJointInRange(command.position[j], previous.position[j], c.limits.velocity[j], elapsed,
                          c.limits.lower[j], c.limits.upper[j], recovery[j]);
    }
  }

  /** A frame that is not a hold: it stays in range when the previous frame was, and leads inward. */
  lemma SentIsInward(c: Config, s: Hardware, i: WriteInput)
    requires c.Shaped() && s.Shaped() && s.active && Sends(c, s, i) && Inv(c, s) && !IsHold(c, s, i)
    ensures var e := Sent(c, s, i);
      && InwardFrame(c, s.log, e)
      && (PositionInRange(c, s.lastSent.position) ==> PositionInRange(c, e.frame.position))
  {
    LimitedFrameInRange(c, s.recovery, i.command.value, s.lastSent, s.elapsed);
  }

  /** Known before the frame is built: it will be a hold, and the latest measurement of some joint
      still recovering is out of range. */
  ghost predicate HoldsStray(c: Config, s: Hardware, i: WriteInput)
    requires c.Shaped() && s.Shaped() && Sends(c, s, i)
  {
    IsHold(c, s, i) &&
    exists j | 0 <= j < JOINTS :: s.recovery[j].direction != Settled && !InRange(c, j, s.safeHold.position[j])
  }

  /** After a frame in range, the next one leaves the range exactly then. */
  lemma NextFrameInRangeIff(c: Config, s: Hardware, i: WriteInput)
    requires c.Shaped() && s.Shaped() && s.active && Sends(c, s, i) && Inv(c, s)
    requires PositionInRange(c, s.lastSent.position)
    ensures PositionInRange(c, WriteFrame(c, s, i).lastSent.position) <==> !HoldsStray(c, s, i)
  {
    SendEffects(c, s, i);
    if !IsHold(c, s, i) {
      SentIsInward(c, s, i);
    }
  }

  lemma SentKeepsLog(c: Config, s: Hardware, i: WriteInput)
    requires c.Shaped() && s.Shaped() && s.active && Sends(c, s, i) && Inv(c, s)
    ensures var e := Sent(c, s, i);
      && InwardFrame(c, s.log, e)
      && (HoldsInRange(c, s.log) && HoldInRange(c, e) ==> PositionInRange(c, e.frame.position))
  {
    if !IsHold(c, s, i) {
      SentIsInward(c, s, i);
    }
  }

  lemma FrameAppend(c: Config, log: seq<Event>, e: Event)
    requires c.Shaped() && LogOk(c, log) && e.Queued? && e.byWrite && InwardFrame(c, log, e)
    requires HoldsInRange(c, log) && HoldInRange(c, e) ==> PositionInRange(c, e.frame.position)
    ensures LogOk(c, log + [e]) && Remembers(log + [e], e.frame)
    ensures HoldsInRange(c, log + [e]) ==> PositionInRange(c, e.frame.position)
  {
    Appended(c, log, e);
  }

  lemma NotingKeepsGuard(
    c: Config, recovery: Recovery, frame: Command, previous: Command, sequence: nat, hold: seq<Double>)
    requires c.Shaped() && frame.Shaped() && previous.Shaped()
    requires Guarded(c, recovery) && SettledInRange(c, recovery, hold)
    ensures var r := NoteQueued(recovery, frame, previous, c.limits, sequence);
      Guarded(c, r) && SettledInRange(c, r, hold)
  {}

  lemma SendKeepsInv(c: Config, s: Hardware, i: WriteInput)
    requires c.Shaped() && s.Shaped() && s.active && Sends(c, s, i) && Inv(c, s)
    ensures Inv(c, WriteFrame(c, s, i))
  {
    var t, e := WriteFrame(c, s, i), Sent(c, s, i);
    SendFacts(c, s, i);
    SendEffects(c, s, i);
    SentKeepsLog(c, s, i);
    NotingKeepsGuard(c, s.recovery, e.frame, s.lastSent, i.sequence, s.safeHold.position);
    if Kind(c, s, i) == PowerOffFrame {
      NeutralAppend(c, s.log, SequenceReset, s.lastSent);
      Appended(c, s.log, SequenceReset);
      InwardSurvives(c, s.log, SequenceReset, e);
      FrameAppend(c, s.log + [SequenceReset], e);
    } else {
      assert t.log == s.log + [e];
      FrameAppend(c, s.log, e);
    }
  }

  lemma InwardSurvives(c: Config, log: seq<Event>, between: Event, e: Event)
    requires c.Shaped() && !IsFrame(between) && InwardFrame(c, log, e)
    ensures InwardFrame(c, log + [between], e)
  {
    Appended(c, log, between);
  }

  lemma StepKeepsInv(c: Config, s: Hardware, l: Small)
    requires c.Shaped() && May(c, s, l) && Inv(c, s)
    ensures Inv(c, Do(c, s, l))
  {
    match l
    case Note(_, _, _, _, _, _, _) =>
    case See(usable) => NeutralAppend(c, s.log, Observed(usable), s.lastSent);
    case Take(position, feedback, written) => TakeKeepsInv(c, s, position, feedback, written);
    case Wait(seconds) => NeutralAppend(c, s.log, Elapsed(seconds), s.lastSent);
    case Send(i) => SendKeepsInv(c, s, i);
    case Stop(to) => QuietKeepsLog(c, s.log, to.log);
  }

  lemma {:induction false} ChainKeepsInv(c: Config, s: Hardware, t: Hardware, labels: seq<Small>)
    requires c.Shaped() && Chain(c, s, t, labels) && Inv(c, s)
    ensures Inv(c, t)
    decreases |labels|
  {
    if labels != [] {
      StepKeepsInv(c, s, labels[0]);
      ChainKeepsInv(c, Do(c, s, labels[0]), t, labels[1..]);
    }
  }

  lemma {:induction false} InRangeHolds(c: Config, log: seq<Event>)
    requires c.Shaped() && FramesInRange(c, log)
    ensures HoldsInRange(c, log)
    decreases |log|
  {
    if log != [] {
      InRangeHolds(c, log[..|log| - 1]);
    }
  }

  lemma {:induction false} HoldsAt(c: Config, log: seq<Event>)
    requires c.Shaped()
    ensures HoldsInRange(c, log) <==> forall k | 0 <= k < |log| :: HoldInRange(c, log[k])
    decreases |log|
  {
    if log != [] {
      HoldsAt(c, log[..|log| - 1]);
    }
  }

  /** The frames are in range exactly when the hold frames of recovering joints are. */
  lemma InRangeIff(c: Config, log: seq<Event>)
    requires c.Shaped() && LogOk(c, log)
    ensures FramesInRange(c, log) <==> HoldsInRange(c, log)
  {
    if FramesInRange(c, log) {
      InRangeHolds(c, log);
    }
  }
}
