/** `read` and `write` as chains of single events. Every invariant of the hardware is then
    proved event by event, whatever the order in which the events come. */
module HardwareSteps {
  import opened CommandMailbox
  import opened Doubles
  import opened CommandSafety
  import opened ArmPowerOn
  import opened HardwareModel

  /** `Note` changes nothing that a frame depends on; `Stop` leaves the hardware inactive. */
  datatype Small =
    | Note(fault: bool, headHold: seq<Double>, stamp: int, wakeups: nat, stateFailures: nat, commandFailures: nat,
           asked: seq<Asking>)
    | See(usable: bool)
    | Take(position: seq<Double>, feedback: nat, written: set<nat>)
    | Wait(seconds: real)
    | Send(i: WriteInput)
    | Stop(to: Hardware)

  /** Nothing was queued between the two logs, except perhaps a power-off. */
  ghost predicate Quiet(before: seq<Event>, after: seq<Event>) {
    && |before| <= |after| && after[..|before|] == before
    && forall k | |before| <= k < |after| :: !after[k].Queued?
  }

  ghost predicate May(c: Config, s: Hardware, l: Small)
    requires c.Shaped()
  {
    && s.Shaped()
    && if l.Stop? then l.to.Shaped() && !l.to.active && Quiet(s.log, l.to.log)
       else
         && s.active
         && match l
            case Note(_, headHold, _, _, _, _, _) => |headHold| == HEAD
            case See(_) => true
            case Take(position, feedback, written) =>
              && |position| == JOINTS && AllFinite(position)
              && (c.power ==>
                    && MeasureOk(s.recovery, position, c.limits, EntriesWritten(s.recovery, written), feedback)
                    && AuxiliaryOk(HoldCommand(position, s.headHold), c.limits))
            case Wait(seconds) => seconds > 0.0
            case Send(i) => Sends(c, s, i)
            case Stop(_) => true
  }

  ghost predicate Sends(c: Config, s: Hardware, i: WriteInput)
    requires c.Shaped() && s.Shaped()
  {
    && c.power && i.command.Some? && i.command.value.Shaped()
    && ValidateOk(s.recovery, i.command.value, s.lastSent, c.limits)
    && StepLimitOk(i.command.value, s.lastSent, c.limits, Finite(s.elapsed))
    && i.safetyPower.Some? && i.safetyPower.value.Finite?
    && i.encoded && i.sequence != 0
  }

  ghost function Adopt(c: Config, s: Hardware, position: seq<Double>, feedback: nat, written: set<nat>): (t: Hardware)
    requires c.Shaped() && s.Shaped() && |position| == JOINTS
    ensures t.Shaped()
  {
    s.(recovery := if c.power
         then Measure(s.recovery, position, c.limits, EntriesWritten(s.recovery, written), feedback)
         else s.recovery,
       safeHold := HoldCommand(position, s.headHold),
       log := s.log + (if c.power then [Measured(feedback, position, written)] else []) + [Held(position)])
  }

  ghost function Do(c: Config, s: Hardware, l: Small): (t: Hardware)
    requires c.Shaped() && May(c, s, l)
    ensures t.Shaped()
  {
    match l
    case Note(fault, headHold, stamp, wakeups, stateFailures, commandFailures, asked) =>
      s.(serialFault := fault, headHold := headHold, lastStamp := stamp, wakeups := wakeups,
         stateFailures := stateFailures, commandFailures := commandFailures, asked := asked)
    case See(usable) => SeeFrame(c, s, usable)
    case Take(position, feedback, written) => Adopt(c, s, position, feedback, written)
    case Wait(seconds) => s.(elapsed := s.elapsed + seconds, log := s.log + [Elapsed(seconds)])
    case Send(i) => WriteFrame(c, s, i)
    case Stop(to) => to
  }

  ghost predicate Chain(c: Config, s: Hardware, t: Hardware, labels: seq<Small>)
    requires c.Shaped()
    decreases |labels|
  {
    if labels == [] then s == t
    else May(c, s, labels[0]) && Chain(c, Do(c, s, labels[0]), t, labels[1..])
  }

  ghost predicate Reaches(c: Config, s: Hardware, t: Hardware)
    requires c.Shaped()
  {
    exists labels :: Chain(c, s, t, labels)
  }

  lemma Stays(c: Config, s: Hardware)
    requires c.Shaped()
    ensures Reaches(c, s, s)
  {
    assert Chain(c, s, s, []);
  }

  lemma {:induction false} ChainConcat(c: Config, s: Hardware, u: Hardware, t: Hardware, a: seq<Small>, b: seq<Small>)
    requires c.Shaped() && Chain(c, s, u, a) && Chain(c, u, t, b)
    ensures Chain(c, s, t, a + b)
    decreases |a|
  {
    if a == [] {
      assert a + b == b;
    } else {
      ChainConcat(c, Do(c, s, a[0]), u, t, a[1..], b);
      assert (a + b)[1..] == a[1..] + b;
    }
  }

  lemma Then(c: Config, s: Hardware, u: Hardware, l: Small)
    requires c.Shaped() && Reaches(c, s, u) && May(c, u, l)
    ensures Reaches(c, s, Do(c, u, l))
  {
    var a :| Chain(c, s, u, a);
    assert Chain(c, Do(c, u, l), Do(c, u, l), []);
    assert Chain(c, u, Do(c, u, l), [l]);
    ChainConcat(c, s, u, Do(c, u, l), a, [l]);
  }

  lemma Transitive(c: Config, s: Hardware, u: Hardware, t: Hardware)
    requires c.Shaped() && Reaches(c, s, u) && Reaches(c, u, t)
    ensures Reaches(c, s, t)
  {
    var a :| Chain(c, s, u, a);
    var b :| Chain(c, u, t, b);
    ChainConcat(c, s, u, t, a, b);
  }

  lemma OneStep(c: Config, s: Hardware, l: Small)
    requires c.Shaped() && May(c, s, l)
    ensures Reaches(c, s, Do(c, s, l))
  {
    Stays(c, s);
    Then(c, s, s, l);
  }

  lemma StopReaches(c: Config, s: Hardware, t: Hardware)
    requires c.Shaped() && s.Shaped() && t.Shaped() && !t.active && Quiet(s.log, t.log)
    ensures Reaches(c, s, t)
  {
    OneStep(c, s, Stop(t));
  }

  lemma NoteReaches(c: Config, s: Hardware, t: Hardware)
    requires c.Shaped() && s.Shaped() && t.Shaped() && s.active
    requires t == s.(serialFault := t.serialFault, headHold := t.headHold, lastStamp := t.lastStamp,
                     wakeups := t.wakeups, stateFailures := t.stateFailures, commandFailures := t.commandFailures,
                     asked := t.asked)
    ensures Reaches(c, s, t)
  {
    OneStep(c, s, Note(t.serialFault, t.headHold, t.lastStamp, t.wakeups, t.stateFailures, t.commandFailures,
                       t.asked));
  }

  lemma PowerDownReaches(c: Config, s: Hardware, queued: bool)
    requires c.Shaped() && s.Shaped()
    ensures Reaches(c, s, PowerDown(s, queued))
  {
    StopReaches(c, s, PowerDown(s, queued));
  }

  // ----- read -----

  lemma MeasurementStops(c: Config, s: Hardware, position: seq<Double>, feedback: nat, i: ReadInput)
    requires c.Shaped() && s.Shaped() && |position| == JOINTS
    ensures var t := TakeMeasurement(c, s, position, feedback, i); t.active || Quiet(s.log, t.log)
  {}

  lemma MeasurementTakes(c: Config, s: Hardware, position: seq<Double>, feedback: nat, i: ReadInput)
    requires c.Shaped() && s.Shaped() && |position| == JOINTS && AllFinite(position)
    requires TakeMeasurement(c, s, position, feedback, i).active
    ensures May(c, s, Take(position, feedback, i.written))
    ensures TakeMeasurement(c, s, position, feedback, i) == Adopt(c, s, position, feedback, i.written)
  {}

  lemma MeasurementReaches(c: Config, s: Hardware, position: seq<Double>, feedback: nat, i: ReadInput)
    requires c.Shaped() && s.Shaped() && |position| == JOINTS && AllFinite(position)
    ensures Reaches(c, s, TakeMeasurement(c, s, position, feedback, i))
  {
    var t := TakeMeasurement(c, s, position, feedback, i);
    if t.active {
      MeasurementTakes(c, s, position, feedback, i);
      OneStep(c, s, Take(position, feedback, i.written));
    } else {
      MeasurementStops(c, s, position, feedback, i);
      StopReaches(c, s, t);
    }
  }

  lemma AccessReaches(c: Config, s: Hardware, h: Hardware)
    requires c.Shaped() && s.Shaped() && |h.headHold| == HEAD
    requires h == s.(headHold := h.headHold, stateFailures := h.stateFailures)
    ensures Reaches(c, s, h)
  {
    if s.active {
      NoteReaches(c, s, h);
    } else {
      StopReaches(c, s, h);
    }
  }

  lemma FrameReadReaches(c: Config, s: Hardware, f: Feedback, i: ReadInput)
    requires c.Shaped() && s.Shaped() && f.Shaped()
    ensures Reaches(c, s, ReadFrame(c, s, f, i))
  {
    var t := ReadFrame(c, s, f, i);
    if f.position.None? || f.head.None? {
      StopReaches(c, s, t);
      return;
    }
    var h := s.(headHold := [f.head.value.0, f.head.value.1, s.headHold[2]],
                stateFailures := if i.stored then 0 else s.stateFailures + 1);
    AccessReaches(c, s, h);
    if i.stored {
      MeasurementReaches(c, h, f.position.value, f.sequence, i);
      Transitive(c, s, h, t);
    } else if h.stateFailures > MAX_ACCESS_FAILURES {
      PowerDownReaches(c, h, i.powerOffQueued);
      Transitive(c, s, h, t);
    }
  }

  lemma ReadReaches(c: Config, s: Hardware, i: ReadInput)
    requires c.Shaped() && s.Shaped() && i.Shaped()
    ensures Reaches(c, s, Read(c, s, i))
  {
    Stays(c, s);
    PowerDownReaches(c, s, i.powerOffQueued);
    if s.serialFault || i.feedback.None? || (s.active && i.now - i.feedback.value.receivedAt > c.feedbackTimeout) {
      return;
    }
    var f := i.feedback.value;
    var o := s;
    if s.active {
      o := SeeFrame(c, s, f.usable);
      OneStep(c, s, See(f.usable));
    }
    FrameReadReaches(c, o, f, i);
    Transitive(c, s, o, Read(c, s, i));
  }

  // ----- write -----

  lemma QueueStops(c: Config, s: Hardware, kind: FrameKind, limited: Command, i: WriteInput)
    requires c.Shaped() && s.Shaped() && limited.Shaped() && !(i.encoded && i.sequence != 0)
    ensures var t := QueueFrame(c, s, kind, limited, i); !t.active && Quiet(s.log, t.log)
  {}

  lemma UnsentReaches(c: Config, s: Hardware, i: WriteInput)
    requires c.Shaped() && s.Shaped() && i.command.Some? && i.command.value.Shaped()
    requires !(i.encoded && i.sequence != 0)
    ensures Reaches(c, s, WriteFrame(c, s, i))
  {
    if StepLimitOk(i.command.value, s.lastSent, c.limits, Finite(s.elapsed)) &&
      i.safetyPower.Some? && i.safetyPower.value.Finite?
    {
      var requested := i.safetyPower.value.v >= 0.5;
      var settled := SettlePower(c, s, requested, i);
      QueueStops(c, settled, DecideFrame(requested, settled.arm.stage),
                 LimitedCommand(i.command.value, s.lastSent, c.limits, s.elapsed), i);
      StopReaches(c, s, WriteFrame(c, s, i));
    } else {
      PowerDownReaches(c, s, i.powerOffQueued);
    }
  }

  lemma FrameReaches(c: Config, s: Hardware, i: WriteInput)
    requires c.Shaped() && s.Shaped() && s.active && c.power && i.command.Some? && i.command.value.Shaped()
    requires ValidateOk(s.recovery, i.command.value, s.lastSent, c.limits)
    ensures Reaches(c, s, WriteFrame(c, s, i))
  {
    if Sends(c, s, i) {
      OneStep(c, s, Send(i));
    } else if i.encoded && i.sequence != 0 {
      PowerDownReaches(c, s, i.powerOffQueued);
    } else {
      UnsentReaches(c, s, i);
    }
  }

  lemma WakeupReaches(c: Config, s: Hardware, i: WriteInput)
    requires c.Shaped() && s.Shaped() && s.active && s.wakeups > 0
    ensures var w := Ask(s.(wakeups := s.wakeups - 1), true);
      && Reaches(c, s, w.(lastStamp := i.now))
      && Reaches(c, s, PowerDown(w.(serialFault := true), i.powerOffQueued))
  {
    var w := Ask(s.(wakeups := s.wakeups - 1), true);
    NoteReaches(c, s, w.(lastStamp := i.now));
    StopReaches(c, s, PowerDown(w.(serialFault := true), i.powerOffQueued));
  }

  lemma PassReaches(c: Config, s: Hardware, i: WriteInput)
    requires c.Shaped() && s.Shaped() && i.Shaped() && s.active && c.power
    ensures Reaches(c, s, Pass(c, s, i))
  {
    Stays(c, s);
    PowerDownReaches(c, s, i.powerOffQueued);
    if i.command.Some? && ValidateOk(s.recovery, i.command.value, s.lastSent, c.limits) &&
      i.now - s.lastStamp >= c.commandPeriod
    {
      if s.wakeups > 0 {
        WakeupReaches(c, s, i);
      } else {
        FrameReaches(c, s, i);
      }
    }
  }

  lemma PeriodReaches(c: Config, s: Hardware, i: WriteInput)
    requires c.Shaped() && s.Shaped() && s.active && i.period.Finite? && i.period.v > 0.0
    ensures Reaches(c, s, AddPeriod(s, i))
  {
    var e := Do(c, s, Wait(i.period.v));
    OneStep(c, s, Wait(i.period.v));
    NoteReaches(c, e, AddPeriod(s, i));
    Transitive(c, s, e, AddPeriod(s, i));
  }

  lemma WriteReaches(c: Config, s: Hardware, i: WriteInput)
    requires c.Shaped() && s.Shaped() && i.Shaped()
    ensures Reaches(c, s, Write(c, s, i))
  {
    Stays(c, s);
    PowerDownReaches(c, s, i.powerOffQueued);
    if s.active && c.power && !s.serialFault && i.open && i.period.Finite? && i.period.v > 0.0 {
      PeriodReaches(c, s, i);
      PassReaches(c, AddPeriod(s, i), i);
      Transitive(c, s, AddPeriod(s, i), Write(c, s, i));
    }
  }

  // ----- the log only grows -----

  lemma {:induction false} ChainKeepsLog(c: Config, s: Hardware, t: Hardware, labels: seq<Small>)
    requires c.Shaped() && Chain(c, s, t, labels)
    ensures s.log <= t.log
    decreases |labels|
  {
    if labels != [] {
      ChainKeepsLog(c, Do(c, s, labels[0]), t, labels[1..]);
      DoKeepsLog(c, s, labels[0]);
    }
  }

  lemma DoKeepsLog(c: Config, s: Hardware, l: Small)
    requires c.Shaped() && May(c, s, l)
    ensures s.log <= Do(c, s, l).log
  {
    if l.Send? {
      SendFacts(c, s, l.i);
    }
  }

  lemma StepReaches(c: Config, s: Hardware, i: Input)
    requires c.Shaped() && s.Shaped() && i.Shaped()
    ensures Reaches(c, s, Step(c, s, i))
  {
    match i
    case ReadIn(read) => ReadReaches(c, s, read);
    case WriteIn(write) => WriteReaches(c, s, write);
    case ErrorIn =>
      if s.active {
        NoteReaches(c, s, SerialError(s));
      } else {
        StopReaches(c, s, SerialError(s));
      }
  }

  lemma StepKeepsLog(c: Config, s: Hardware, i: Input)
    requires c.Shaped() && s.Shaped() && i.Shaped()
    ensures s.log <= Step(c, s, i).log
  {
    StepReaches(c, s, i);
    var labels :| Chain(c, s, Step(c, s, i), labels);
    ChainKeepsLog(c, s, Step(c, s, i), labels);
  }

  // ----- what a sent frame is -----

  /** The arm stage in which the frame is sent. */
  ghost function ArmWhenSent(c: Config, s: Hardware, i: WriteInput): ArmSequence
    requires c.Shaped() && s.Shaped() && Sends(c, s, i)
  {
    SettlePower(c, s, i.safetyPower.value.v >= 0.5, i).arm
  }

  ghost function Kind(c: Config, s: Hardware, i: WriteInput): FrameKind
    requires c.Shaped() && s.Shaped() && Sends(c, s, i)
  {
    DecideFrame(i.safetyPower.value.v >= 0.5, ArmWhenSent(c, s, i).stage)
  }

  /** The frame is the first one after an enable. */
  ghost predicate IsHold(c: Config, s: Hardware, i: WriteInput)
    requires c.Shaped() && s.Shaped() && Sends(c, s, i)
  {
    Kind(c, s, i) == EnabledFrame && (s.arm.stage != Enabled || !s.enableSent)
  }

  ghost function Frame(c: Config, s: Hardware, i: WriteInput): (f: Command)
    requires c.Shaped() && s.Shaped() && Sends(c, s, i)
    ensures f.Shaped()
  {
    if IsHold(c, s, i) then HoldCommand(s.safeHold.position, s.safeHold.head)
    else LimitedCommand(i.command.value, s.lastSent, c.limits, s.elapsed)
  }

  ghost function Sent(c: Config, s: Hardware, i: WriteInput): Event
    requires c.Shaped() && s.Shaped() && Sends(c, s, i)
  {
    Queued(FlagOf(Kind(c, s, i)), i.now, i.sequence, Frame(c, s, i), s.lastSent, true, IsHold(c, s, i),
           Directions(s.recovery), i.written)
  }

  lemma SendFacts(c: Config, s: Hardware, i: WriteInput)
    requires c.Shaped() && s.Shaped() && s.active && Sends(c, s, i)
    ensures var t := WriteFrame(c, s, i); var kind := Kind(c, s, i);
      && t.active
      && t.log == s.log + (if kind == PowerOffFrame then [SequenceReset] else []) + [Sent(c, s, i)]
      && t.arm == (if kind == PrechargeFrame then NotePrecharge(ArmWhenSent(c, s, i), i.sequence, i.now)
                   else ArmWhenSent(c, s, i))
      && (t.arm.stage == Enabled <==> kind == EnabledFrame)
      && t.enableSent == (kind == EnabledFrame || (kind == PrechargeFrame && s.enableSent))
  {}

  lemma SendEffects(c: Config, s: Hardware, i: WriteInput)
    requires c.Shaped() && s.Shaped() && s.active && Sends(c, s, i)
    ensures var t := WriteFrame(c, s, i); var frame := Frame(c, s, i);
      && t.recovery == (if Kind(c, s, i) == EnabledFrame
                        then NoteQueued(s.recovery, frame, s.lastSent, c.limits, i.sequence) else s.recovery)
      && t.lastSent == frame && t.elapsed == 0.0 && t.safeHold == s.safeHold && t.headHold == frame.head
  {}

  // ----- runs -----

  lemma {:induction false} RunReaches(c: Config, s: Hardware, inputs: seq<Input>)
    requires c.Shaped() && s.Shaped() && AllShaped(inputs)
    ensures Reaches(c, s, After(c, s, inputs))
  {
    Stays(c, s);
    if inputs != [] {
      var init, last := inputs[..|inputs| - 1], inputs[|inputs| - 1];
      RunReaches(c, s, init);
      var u := After(c, s, init);
      StepReaches(c, u, last);
      Transitive(c, s, u, After(c, s, inputs));
    }
  }
}
