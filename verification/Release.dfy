/** When a joint stops recovering: after a frame that leads it inside, the completion of that
    frame's write, and a later measurement inside the hard limits, and not before. */
module Release {
  import opened CommandMailbox
  import opened Doubles
  import opened CommandSafety
  import opened ArmPowerOn
  import opened HardwareModel
  import opened HardwareSteps

  /** One joint with its hard limits and the direction its recovery began with. */
  datatype Case = Case(j: nat, start: Direction, lower: Double, upper: Double) {
    ghost predicate Valid() { j < JOINTS }
  }

  // ----- the three moments, read off the log -----

  /** An enabled frame that leads the joint inward and inside its limits. */
  ghost predicate Enters(k: Case, e: Event)
    requires k.Valid()
  {
    && e.Queued? && e.byWrite && e.flag == ACTIVE_CONTROL_FLAG && e.sequence != 0
    && e.frame.Shaped() && e.previous.Shaped()
    && var to, from := e.frame.position[k.j], e.previous.position[k.j];
    && to.Finite? && from.Finite? && k.lower.Finite? && k.upper.Finite? && k.lower.v <= to.v <= k.upper.v
    && ((k.start == Increasing && to.v > from.v) || (k.start == Decreasing && to.v < from.v))
  }

  /** A measurement at which the write of frame `sequence` is seen completed. */
  ghost predicate Confirms(sequence: nat, e: Event) {
    e.Measured? && WriteCompleted(sequence, e.written) && e.feedback != 0
  }

  /** A measurement newer than `feedback` that finds the joint inside its hard limits. */
  ghost predicate Settles(k: Case, feedback: nat, e: Event)
    requires k.Valid()
  {
    && e.Measured? && |e.position| == JOINTS && e.feedback > feedback
    && ConfigurationOk(e.position[k.j], k.lower, k.upper)
    && k.lower.v <= e.position[k.j].v <= k.upper.v
  }

  ghost function FirstEntry(k: Case, log: seq<Event>): (r: Option<nat>)
    requires k.Valid()
    ensures r.Some? ==> r.value < |log| && Enters(k, log[r.value])
  {
    if log == [] then None
    else
      var init, last := log[..|log| - 1], log[|log| - 1];
      if FirstEntry(k, init).Some? then FirstEntry(k, init)
      else if Enters(k, last) then Some(|init|) else None
  }

  ghost function FirstConfirmation(k: Case, log: seq<Event>): (r: Option<nat>)
    requires k.Valid()
    ensures r.Some? ==> FirstEntry(k, log).Some?
    ensures r.Some? ==> FirstEntry(k, log).value < r.value < |log|
    ensures r.Some? ==> Confirms(log[FirstEntry(k, log).value].sequence, log[r.value])
  {
    if log == [] then None
    else
      var init, last := log[..|log| - 1], log[|log| - 1];
      if FirstConfirmation(k, init).Some? then FirstConfirmation(k, init)
      else if FirstEntry(k, init).Some? && Confirms(init[FirstEntry(k, init).value].sequence, last)
      then Some(|init|) else None
  }

  ghost function FirstRelease(k: Case, log: seq<Event>): (r: Option<nat>)
    requires k.Valid()
    ensures r.Some? ==> FirstConfirmation(k, log).Some?
    ensures r.Some? ==> FirstConfirmation(k, log).value < r.value < |log|
    ensures r.Some? ==> Settles(k, log[FirstConfirmation(k, log).value].feedback, log[r.value])
  {
    if log == [] then None
    else
      var init, last := log[..|log| - 1], log[|log| - 1];
      if FirstRelease(k, init).Some? then FirstRelease(k, init)
      else if FirstConfirmation(k, init).Some? && Settles(k, init[FirstConfirmation(k, init).value].feedback, last)
      then Some(|init|) else None
  }

  // ----- the invariant -----

  /** What the joint's fields must be, given the log. */
  ghost predicate Follows(k: Case, log: seq<Event>, joint: Joint)
    requires k.Valid()
  {
    if k.start == Settled || FirstRelease(k, log).Some? then joint.direction == Settled
    else
      && joint.direction == k.start
      && match FirstEntry(k, log)
         case None => joint.entry == 0 && !joint.entryDone
         case Some(e) =>
           && joint.entry == log[e].sequence && joint.entry != 0
           && match FirstConfirmation(k, log)
              case None => !joint.entryDone
              case Some(m) => joint.entryDone && joint.doneAt == log[m].feedback
  }

  ghost predicate Matches(c: Config, k: Case)
    requires c.Shaped()
  {
    k.Valid() && k.lower == c.limits.lower[k.j] && k.upper == c.limits.upper[k.j]
  }

  /** The direction the joint must have after these events. */
  ghost function DirectionNow(k: Case, log: seq<Event>): Direction
    requires k.Valid()
  {
    if FirstRelease(k, log).Some? then Settled else k.start
  }

  /** Every frame of `write` was sent in the direction the events before it call for. */
  ghost predicate DirectionOk(k: Case, log: seq<Event>, e: Event)
    requires k.Valid()
  {
    e.Queued? && e.byWrite ==> |e.directions| == JOINTS && e.directions[k.j] == DirectionNow(k, log)
  }

  ghost predicate DirectionTrace(k: Case, log: seq<Event>)
    requires k.Valid()
  {
    log != [] ==>
      DirectionTrace(k, log[..|log| - 1]) && DirectionOk(k, log[..|log| - 1], log[|log| - 1])
  }

  ghost predicate Inv(k: Case, s: Hardware)
    requires k.Valid()
  {
    DirectionTrace(k, s.log) && (s.active ==> Follows(k, s.log, s.recovery[k.j]))
  }

  lemma TraceAppended(k: Case, log: seq<Event>, e: Event)
    requires k.Valid()
    ensures DirectionTrace(k, log + [e]) == (DirectionTrace(k, log) && DirectionOk(k, log, e))
  {
    assert (log + [e])[..|log|] == log;
  }

  lemma {:induction false} TraceAt(k: Case, log: seq<Event>, n: nat)
    requires k.Valid() && DirectionTrace(k, log) && n < |log|
    ensures DirectionOk(k, log[..n], log[n])
    decreases |log|
  {
    if n < |log| - 1 {
      TraceAt(k, log[..|log| - 1], n);
      assert log[..|log| - 1][..n] == log[..n];
    }
  }

  lemma {:induction false} QuietKeepsTrace(k: Case, log: seq<Event>, later: seq<Event>)
    requires k.Valid() && DirectionTrace(k, log) && Quiet(log, later)
    ensures DirectionTrace(k, later)
    decreases |later|
  {
    if |later| > |log| {
      var init := later[..|later| - 1];
      assert init[..|log|] == log;
      QuietKeepsTrace(k, log, init);
    } else {
      assert later == log;
    }
  }

  lemma EntryAppended(k: Case, log: seq<Event>, e: Event)
    requires k.Valid()
    ensures FirstEntry(k, log + [e]) ==
      if FirstEntry(k, log).Some? then FirstEntry(k, log) else if Enters(k, e) then Some(|log|) else None
  {
    assert (log + [e])[..|log|] == log;
  }

  lemma ConfirmationAppended(k: Case, log: seq<Event>, e: Event)
    requires k.Valid()
    ensures FirstConfirmation(k, log + [e]) ==
      if FirstConfirmation(k, log).Some? then FirstConfirmation(k, log)
      else if FirstEntry(k, log).Some? && Confirms(log[FirstEntry(k, log).value].sequence, e) then Some(|log|)
      else None
  {
    assert (log + [e])[..|log|] == log;
  }

  lemma ReleaseAppended(k: Case, log: seq<Event>, e: Event)
    requires k.Valid()
    ensures FirstRelease(k, log + [e]) ==
      if FirstRelease(k, log).Some? then FirstRelease(k, log)
      else if FirstConfirmation(k, log).Some? && Settles(k, log[FirstConfirmation(k, log).value].feedback, e)
      then Some(|log|)
      else None
  {
    assert (log + [e])[..|log|] == log;
  }

  /** Any event that is neither a measurement nor an enabled frame of `write`. */
  lemma NeutralAppend(k: Case, log: seq<Event>, e: Event, joint: Joint)
    requires k.Valid() && Follows(k, log, joint) && !Enters(k, e) && !e.Measured?
    ensures Follows(k, log + [e], joint) && DirectionNow(k, log + [e]) == DirectionNow(k, log)
    ensures !e.Queued? && DirectionTrace(k, log) ==> DirectionTrace(k, log + [e])
  {
    TraceAppended(k, log, e);
    EntryAppended(k, log, e);
    ConfirmationAppended(k, log, e);
    ReleaseAppended(k, log, e);
  }

  lemma MeasureFollows(k: Case, log: seq<Event>, joint: Joint, e: Event)
    requires k.Valid() && Follows(k, log, joint) && e.Measured? && |e.position| == JOINTS
    requires MeasureJoint(e.position[k.j], k.lower, k.upper, joint,
                          WriteCompleted(joint.entry, e.written), e.feedback).Kept?
    ensures Follows(k, log + [e],
      MeasureJoint(e.position[k.j], k.lower, k.upper, joint, WriteCompleted(joint.entry, e.written), e.feedback).joint)
  {
    EntryAppended(k, log, e);
    ConfirmationAppended(k, log, e);
    ReleaseAppended(k, log, e);
  }

  lemma NoteFollows(k: Case, log: seq<Event>, joint: Joint, e: Event)
    requires k.Valid() && Follows(k, log, joint) && e.Queued?
    requires e.byWrite && e.flag == ACTIVE_CONTROL_FLAG && e.sequence != 0
    requires e.frame.Shaped() && e.previous.Shaped()
    ensures Follows(k, log + [e],
      NoteJoint(e.frame.position[k.j], e.previous.position[k.j], k.lower, k.upper, joint, e.sequence))
  {
    EntryAppended(k, log, e);
    ConfirmationAppended(k, log, e);
    ReleaseAppended(k, log, e);
  }

  // ----- every single event keeps it -----

  lemma TakeKeepsInv(c: Config, k: Case, s: Hardware, position: seq<Double>, feedback: nat, written: set<nat>)
    requires c.Shaped() && Matches(c, k) && May(c, s, Take(position, feedback, written)) && Inv(k, s)
    ensures Inv(k, Adopt(c, s, position, feedback, written))
  {
    var t := Adopt(c, s, position, feedback, written);
    if c.power {
      var e := Measured(feedback, position, written);
      var w := EntriesWritten(s.recovery, written);
      assert MeasureAt(s.recovery, position, c.limits, w, feedback, k.j).Kept?;
      MeasureFollows(k, s.log, s.recovery[k.j], e);
      TraceAppended(k, s.log, e);
      assert t.recovery[k.j] == MeasureAt(s.recovery, position, c.limits, w, feedback, k.j).joint;
      NeutralAppend(k, s.log + [e], Held(position), t.recovery[k.j]);
      assert t.log == s.log + [e] + [Held(position)];
    } else {
      NeutralAppend(k, s.log, Held(position), s.recovery[k.j]);
      assert t.log == s.log + [Held(position)];
    }
  }

  ghost predicate Good(k: Case, log: seq<Event>, joint: Joint)
    requires k.Valid()
  {
    DirectionTrace(k, log) && Follows(k, log, joint)
  }

  lemma PowerOffSent(k: Case, log: seq<Event>, joint: Joint, e: Event)
    requires k.Valid() && Good(k, log, joint) && e.Queued? && !Enters(k, e)
    requires |e.directions| == JOINTS && e.directions[k.j] == joint.direction
    ensures Good(k, log + [SequenceReset] + [e], joint)
  {
    NeutralAppend(k, log, SequenceReset, joint);
    OtherFrameFollows(k, log + [SequenceReset], joint, e);
  }

  lemma SentIsGood(c: Config, k: Case, s: Hardware, i: WriteInput)
    requires c.Shaped() && Matches(c, k) && s.Shaped() && s.active && Sends(c, s, i) && Inv(k, s)
    ensures var e := Sent(c, s, i); var kind := Kind(c, s, i);
      Good(k, s.log + (if kind == PowerOffFrame then [SequenceReset] else []) + [e],
           if kind != EnabledFrame then s.recovery[k.j]
           else NoteJoint(e.frame.position[k.j], e.previous.position[k.j], k.lower, k.upper, s.recovery[k.j], e.sequence))
  {
    var e := Sent(c, s, i);
    if Kind(c, s, i) == PowerOffFrame {
      PowerOffSent(k, s.log, s.recovery[k.j], e);
    } else {
      assert s.log + [] == s.log;
      if Kind(c, s, i) == EnabledFrame {
        EnabledFrameFollows(k, s.log, s.recovery[k.j], e);
      } else {
        OtherFrameFollows(k, s.log, s.recovery[k.j], e);
      }
    }
  }

  lemma SendKeepsInv(c: Config, k: Case, s: Hardware, i: WriteInput)
    requires c.Shaped() && Matches(c, k) && s.Shaped() && s.active && Sends(c, s, i) && Inv(k, s)
    ensures Inv(k, WriteFrame(c, s, i))
  {
    SendFacts(c, s, i);
    SendEffects(c, s, i);
    SentIsGood(c, k, s, i);
  }

  lemma EnabledFrameFollows(k: Case, log: seq<Event>, joint: Joint, e: Event)
    requires k.Valid() && Follows(k, log, joint) && DirectionTrace(k, log) && e.Queued?
    requires e.byWrite && e.flag == ACTIVE_CONTROL_FLAG && e.sequence != 0
    requires e.frame.Shaped() && e.previous.Shaped()
    requires |e.directions| == JOINTS && e.directions[k.j] == joint.direction
    ensures DirectionTrace(k, log + [e])
    ensures Follows(k, log + [e],
      NoteJoint(e.frame.position[k.j], e.previous.position[k.j], k.lower, k.upper, joint, e.sequence))
  {
    NoteFollows(k, log, joint, e);
    TraceAppended(k, log, e);
  }

  lemma OtherFrameFollows(k: Case, log: seq<Event>, joint: Joint, e: Event)
    requires k.Valid() && Follows(k, log, joint) && DirectionTrace(k, log) && e.Queued? && !Enters(k, e)
    requires |e.directions| == JOINTS && e.directions[k.j] == joint.direction
    ensures Follows(k, log + [e], joint) && DirectionTrace(k, log + [e])
  {
    NeutralAppend(k, log, e, joint);
    TraceAppended(k, log, e);
  }

  lemma StepKeepsInv(c: Config, k: Case, s: Hardware, l: Small)
    requires c.Shaped() && Matches(c, k) && May(c, s, l) && Inv(k, s)
    ensures Inv(k, Do(c, s, l))
  {
    match l
    case Note(_, _, _, _, _, _, _) =>
    case See(usable) => NeutralAppend(k, s.log, Observed(usable), s.recovery[k.j]);
    case Take(position, feedback, written) => TakeKeepsInv(c, k, s, position, feedback, written);
    case Wait(seconds) => NeutralAppend(k, s.log, Elapsed(seconds), s.recovery[k.j]);
    case Send(i) => SendKeepsInv(c, k, s, i);
    case Stop(to) => QuietKeepsTrace(k, s.log, to.log);
  }

  lemma {:induction false} ChainKeepsInv(c: Config, k: Case, s: Hardware, t: Hardware, labels: seq<Small>)
    requires c.Shaped() && Matches(c, k) && Chain(c, s, t, labels) && Inv(k, s)
    ensures Inv(k, t)
    decreases |labels|
  {
    if labels != [] {
      StepKeepsInv(c, k, s, labels[0]);
      ChainKeepsInv(c, k, Do(c, s, labels[0]), t, labels[1..]);
    }
  }

  // ----- the same, by positions in the log -----

  ghost predicate IsFirstEntry(k: Case, log: seq<Event>, e: nat)
    requires k.Valid()
  {
    e < |log| && Enters(k, log[e]) && forall x | 0 <= x < e :: !Enters(k, log[x])
  }

  ghost predicate IsFirstConfirmation(log: seq<Event>, e: nat, m: nat)
    requires e < |log| && log[e].Queued?
  {
    && e < m < |log| && Confirms(log[e].sequence, log[m])
    && forall x | e < x < m :: !Confirms(log[e].sequence, log[x])
  }

  ghost predicate IsRelease(k: Case, log: seq<Event>, e: nat, m: nat, r: nat)
    requires k.Valid()
  {
    && IsFirstEntry(k, log, e) && IsFirstConfirmation(log, e, m)
    && m < r < |log| && Settles(k, log[m].feedback, log[r])
  }

  lemma {:induction false} EntryIsFirst(k: Case, log: seq<Event>)
    requires k.Valid()
    ensures match FirstEntry(k, log)
      case None => forall x | 0 <= x < |log| :: !Enters(k, log[x])
      case Some(e) => IsFirstEntry(k, log, e)
    decreases |log|
  {
    if log != [] {
      EntryIsFirst(k, log[..|log| - 1]);
    }
  }

  lemma {:induction false} ConfirmationIsFirst(k: Case, log: seq<Event>)
    requires k.Valid() && FirstEntry(k, log).Some?
    ensures var e := FirstEntry(k, log).value;
      match FirstConfirmation(k, log)
      case None => forall x | e < x < |log| :: !Confirms(log[e].sequence, log[x])
      case Some(m) => IsFirstConfirmation(log, e, m)
    decreases |log|
  {
    var init := log[..|log| - 1];
    if FirstEntry(k, init).Some? {
      ConfirmationIsFirst(k, init);
    }
  }

  lemma {:induction false} ReleaseIsFirst(k: Case, log: seq<Event>)
    requires k.Valid() && FirstConfirmation(k, log).Some? && FirstRelease(k, log).None?
    ensures var m := FirstConfirmation(k, log).value;
      forall x | m < x < |log| :: !Settles(k, log[m].feedback, log[x])
    decreases |log|
  {
    var init := log[..|log| - 1];
    if FirstConfirmation(k, init).Some? {
      ReleaseIsFirst(k, init);
    }
  }

  ghost predicate Released(k: Case, log: seq<Event>)
    requires k.Valid()
  {
    exists e: nat, m: nat, r: nat :: IsRelease(k, log, e, m, r)
  }

  lemma ReleasedIff(k: Case, log: seq<Event>)
    requires k.Valid()
    ensures FirstRelease(k, log).Some? <==> Released(k, log)
  {
    if FirstRelease(k, log).Some? {
      EntryIsFirst(k, log);
      ConfirmationIsFirst(k, log);
      assert IsRelease(k, log, FirstEntry(k, log).value, FirstConfirmation(k, log).value, FirstRelease(k, log).value);
    } else if Released(k, log) {
      var e: nat, m: nat, r: nat :| IsRelease(k, log, e, m, r);
      ReleaseIsFound(k, log, e, m, r);
    }
  }

  lemma ReleaseIsFound(k: Case, log: seq<Event>, e: nat, m: nat, r: nat)
    requires k.Valid() && IsRelease(k, log, e, m, r)
    ensures FirstRelease(k, log).Some?
  {
    EntryIsFirst(k, log);
    assert FirstEntry(k, log) == Some(e);
    ConfirmationIsFirst(k, log);
    assert FirstConfirmation(k, log) == Some(m);
    if FirstRelease(k, log).None? {
      ReleaseIsFirst(k, log);
    }
  }

  /** A joint that began outside its limits has stopped recovering exactly when the log holds the
      three moments, in this order. */
  lemma SettledIff(k: Case, s: Hardware)
    requires k.Valid() && k.start != Settled && s.active && Inv(k, s)
    ensures s.recovery[k.j].direction == Settled <==> Released(k, s.log)
    ensures s.recovery[k.j].direction == if Released(k, s.log) then Settled else k.start
  {
    ReleasedIff(k, s.log);
  }

  // ----- a settled joint -----

  lemma MeasureKeepsSettled(
    recovery: Recovery, position: seq<Double>, limits: Limits, written: seq<bool>, feedback: nat, j: nat)
    requires |position| == JOINTS && limits.Shaped() && |written| == JOINTS && j < JOINTS
    requires recovery[j].direction == Settled
    ensures Measure(recovery, position, limits, written, feedback)[j].direction == Settled
  {}

  lemma ReadKeepsSettled(c: Config, s: Hardware, i: ReadInput, j: nat)
    requires c.Shaped() && s.Shaped() && i.Shaped() && j < JOINTS && s.recovery[j].direction == Settled
    ensures Read(c, s, i).recovery[j].direction == Settled
  {
    if i.feedback.Some? && i.feedback.value.position.Some? {
      MeasureKeepsSettled(s.recovery, i.feedback.value.position.value, c.limits,
                          EntriesWritten(s.recovery, i.written), i.feedback.value.sequence, j);
    }
  }

  // ----- `write` changes no direction -----

  lemma WriteKeepsDirection(c: Config, s: Hardware, i: WriteInput, j: nat)
    requires c.Shaped() && s.Shaped() && i.Shaped() && j < JOINTS
    ensures Write(c, s, i).recovery[j].direction == s.recovery[j].direction
  {
    if i.period.Finite? && i.command.Some? {
      FrameKeepsDirection(c, AddPeriod(s, i), i, j);
    }
  }

  lemma NoteKeepsDirection(recovery: Recovery, frame: Command, previous: Command, limits: Limits, sequence: nat, j: nat)
    requires frame.Shaped() && previous.Shaped() && limits.Shaped() && j < JOINTS
    ensures NoteQueued(recovery, frame, previous, limits, sequence)[j].direction == recovery[j].direction
  {}

  lemma QueueKeepsDirection(c: Config, s: Hardware, kind: FrameKind, limited: Command, i: WriteInput, j: nat)
    requires c.Shaped() && s.Shaped() && limited.Shaped() && j < JOINTS
    ensures QueueFrame(c, s, kind, limited, i).recovery[j].direction == s.recovery[j].direction
  {
    NoteKeepsDirection(s.recovery, limited, s.lastSent, c.limits, i.sequence, j);
    NoteKeepsDirection(
      s.recovery, HoldCommand(s.safeHold.position, s.safeHold.head), s.lastSent, c.limits, i.sequence, j);
  }

  lemma FrameKeepsDirection(c: Config, s: Hardware, i: WriteInput, j: nat)
    requires c.Shaped() && s.Shaped() && i.command.Some? && i.command.value.Shaped() && j < JOINTS
    ensures WriteFrame(c, s, i).recovery[j].direction == s.recovery[j].direction
  {
    if StepLimitOk(i.command.value, s.lastSent, c.limits, Finite(s.elapsed)) &&
      i.safetyPower.Some? && i.safetyPower.value.Finite?
    {
      var requested := i.safetyPower.value.v >= 0.5;
      var settled := SettlePower(c, s, requested, i);
      QueueKeepsDirection(c, settled, DecideFrame(requested, settled.arm.stage),
                          LimitedCommand(i.command.value, s.lastSent, c.limits, s.elapsed), i, j);
    }
  }

  // ----- even a call that faults ends no recovery early -----

  ghost predicate EarnedBy(k: Case, log: seq<Event>, joint: Joint)
    requires k.Valid()
  {
    joint.direction == k.start || (joint.direction == Settled && FirstRelease(k, log).Some?)
  }

  /** Still recovering as it began, or released. */
  ghost predicate Earned(k: Case, s: Hardware)
    requires k.Valid()
  {
    EarnedBy(k, s.log, s.recovery[k.j])
  }

  lemma {:induction false} ReleaseStays(k: Case, log: seq<Event>, later: seq<Event>)
    requires k.Valid() && log <= later && FirstRelease(k, log).Some?
    ensures FirstRelease(k, later).Some?
    decreases |later|
  {
    if |later| > |log| {
      ReleaseStays(k, log, later[..|later| - 1]);
    } else {
      assert later == log;
    }
  }

  lemma EarnedStays(k: Case, log: seq<Event>, later: seq<Event>, joint: Joint)
    requires k.Valid() && log <= later && EarnedBy(k, log, joint)
    ensures EarnedBy(k, later, joint)
  {
    if FirstRelease(k, log).Some? {
      ReleaseStays(k, log, later);
    }
  }

  /** The update may stop at another joint's fault: this one has then been measured, or left alone. */
  lemma MeasuredOrLeft(c: Config, s: Hardware, position: seq<Double>, feedback: nat, i: ReadInput, j: nat)
    requires c.Shaped() && s.Shaped() && |position| == JOINTS && j < JOINTS && s.active && c.power
    ensures var t := TakeMeasurement(c, s, position, feedback, i);
      var m := MeasureAt(s.recovery, position, c.limits, EntriesWritten(s.recovery, i.written), feedback, j);
      && s.log + [Measured(feedback, position, i.written)] <= t.log
      && (t.recovery[j] == s.recovery[j] || (m.Kept? && t.recovery[j] == m.joint))
  {}

  lemma UnguardedLeaves(c: Config, s: Hardware, position: seq<Double>, feedback: nat, i: ReadInput)
    requires c.Shaped() && s.Shaped() && |position| == JOINTS && !(s.active && c.power)
    ensures var t := TakeMeasurement(c, s, position, feedback, i); t.recovery == s.recovery && s.log <= t.log
  {}

  lemma MeasurementEarns(c: Config, k: Case, s: Hardware, position: seq<Double>, feedback: nat, i: ReadInput)
    requires c.Shaped() && Matches(c, k) && s.Shaped() && |position| == JOINTS
    requires Follows(k, s.log, s.recovery[k.j])
    ensures Earned(k, TakeMeasurement(c, s, position, feedback, i))
  {
    var t := TakeMeasurement(c, s, position, feedback, i);
    var joint := s.recovery[k.j];
    if s.active && c.power {
      var e := Measured(feedback, position, i.written);
      MeasuredOrLeft(c, s, position, feedback, i, k.j);
      ReleaseAppended(k, s.log, e);
      if t.recovery[k.j] != joint {
        MeasureFollows(k, s.log, joint, e);
      }
      EarnedStays(k, s.log + [e], t.log, t.recovery[k.j]);
    } else {
      UnguardedLeaves(c, s, position, feedback, i);
      EarnedStays(k, s.log, t.log, joint);
    }
  }

  lemma UntakenLeaves(c: Config, s: Hardware, f: Feedback, i: ReadInput)
    requires c.Shaped() && s.Shaped() && f.Shaped() && (f.position.None? || f.head.None? || !i.stored)
    ensures var t := ReadFrame(c, s, f, i); t.recovery == s.recovery && s.log <= t.log
  {}

  lemma FrameReadEarns(c: Config, k: Case, s: Hardware, f: Feedback, i: ReadInput)
    requires c.Shaped() && Matches(c, k) && s.Shaped() && f.Shaped() && Follows(k, s.log, s.recovery[k.j])
    ensures Earned(k, ReadFrame(c, s, f, i))
  {
    if f.position.Some? && f.head.Some? && i.stored {
      MeasurementEarns(c, k, s.(headHold := [f.head.value.0, f.head.value.1, s.headHold[2]], stateFailures := 0),
                       f.position.value, f.sequence, i);
    } else {
      UntakenLeaves(c, s, f, i);
      EarnedStays(k, s.log, ReadFrame(c, s, f, i).log, s.recovery[k.j]);
    }
  }

  lemma ReadEarns(c: Config, k: Case, s: Hardware, i: ReadInput)
    requires c.Shaped() && Matches(c, k) && s.Shaped() && i.Shaped() && s.active && Follows(k, s.log, s.recovery[k.j])
    ensures Earned(k, Read(c, s, i))
  {
    if !s.serialFault && i.feedback.Some? && i.now - i.feedback.value.receivedAt <= c.feedbackTimeout {
      var f := i.feedback.value;
      NeutralAppend(k, s.log, Observed(f.usable), s.recovery[k.j]);
      FrameReadEarns(c, k, SeeFrame(c, s, f.usable), f, i);
    } else {
      EarnedStays(k, s.log, Read(c, s, i).log, s.recovery[k.j]);
    }
  }

  lemma InactiveReadKeepsRecovery(c: Config, s: Hardware, i: ReadInput)
    requires c.Shaped() && s.Shaped() && i.Shaped() && !s.active
    ensures Read(c, s, i).recovery == s.recovery
  {}

  lemma StepEarns(c: Config, k: Case, s: Hardware, i: Input)
    requires c.Shaped() && Matches(c, k) && s.Shaped() && i.Shaped() && Inv(k, s) && Earned(k, s)
    ensures Earned(k, Step(c, s, i))
  {
    var t := Step(c, s, i);
    if i.ReadIn? && s.active {
      ReadEarns(c, k, s, i.read);
    } else {
      if i.ReadIn? {
        InactiveReadKeepsRecovery(c, s, i.read);
      } else if i.WriteIn? {
        WriteKeepsDirection(c, s, i.write, k.j);
      }
      StepKeepsLog(c, s, i);
      EarnedStays(k, s.log, t.log, s.recovery[k.j]);
    }
  }

  lemma {:induction false} RunEarns(c: Config, k: Case, s: Hardware, inputs: seq<Input>)
    requires c.Shaped() && Matches(c, k) && s.Shaped() && AllShaped(inputs) && Inv(k, s) && Earned(k, s)
    ensures Inv(k, After(c, s, inputs)) && Earned(k, After(c, s, inputs))
  {
    if inputs != [] {
      var init, last := inputs[..|inputs| - 1], inputs[|inputs| - 1];
      var u := After(c, s, init);
      RunEarns(c, k, s, init);
      StepEarns(c, k, u, last);
      StepReaches(c, u, last);
      var labels :| Chain(c, u, Step(c, u, last), labels);
      ChainKeepsInv(c, k, u, Step(c, u, last), labels);
    }
  }
}
