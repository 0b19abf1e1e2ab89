/** The main safety results: what holds of every frame queued by an activation followed by any
    sequence of `read` and `write` calls. */
module HardwareSafety {
  import opened CommandMailbox
  import opened Doubles
  import opened CommandSafety
  import opened ArmPowerOn
  import opened HardwareModel
  import opened HardwareSteps
  import opened Activation
  import PowerTrace
  import Motion
  import LimitKeeping
  import Release

  // ----- activation establishes the invariants -----

  /** The arms are not enabled yet and the log explains the stage. */
  ghost predicate Waiting(c: Config, s: Hardware)
    requires c.Shaped()
  {
    && PowerTrace.TraceOk(c, s.log) && PowerTrace.ArmInv(c, s.arm, s.log) && s.arm.stage != Enabled
    && PowerTrace.LastFlag(s.log) != Some(ACTIVE_CONTROL_FLAG)
  }

  /** No frame yet that `write` queued. */
  ghost predicate NotWritten(log: seq<Event>) {
    log != [] ==>
      var last := log[|log| - 1];
      NotWritten(log[..|log| - 1]) && (last.Queued? ==> !last.byWrite)
  }

  lemma NotWrittenAppended(log: seq<Event>, e: Event)
    requires NotWritten(log) && (e.Queued? ==> !e.byWrite)
    ensures NotWritten(log + [e])
  {
    assert (log + [e])[..|log|] == log;
  }

  lemma SeeKeepsWaiting(c: Config, s: Hardware, usable: bool)
    requires c.Shaped() && Waiting(c, s) && NotWritten(s.log)
    ensures Waiting(c, SeeFrame(c, s, usable)) && NotWritten(SeeFrame(c, s, usable).log)
    ensures Motion.LastHeld(SeeFrame(c, s, usable).log) == Motion.LastHeld(s.log)
  {
    PowerTrace.ObserveKeepsInv(c, s.arm, s.log, usable);
    PowerTrace.Appended(s.log, Observed(usable), c.required);
    Motion.Appended(s.log, Observed(usable));
    NotWrittenAppended(s.log, Observed(usable));
  }

  lemma PrechargeKeepsWaiting(c: Config, s: Hardware, t: Tick)
    requires c.Shaped() && Waiting(c, s) && NotWritten(s.log) && t.sequence != 0
    ensures Waiting(c, SendPrecharge(s, t)) && NotWritten(SendPrecharge(s, t).log)
    ensures Motion.LastHeld(SendPrecharge(s, t).log) == Motion.LastHeld(s.log)
  {
    PowerTrace.PrechargeKeepsInv(c, s.arm, s.log, PrechargeEvent(s, t));
    PowerTrace.Appended(s.log, PrechargeEvent(s, t), c.required);
    Motion.Appended(s.log, PrechargeEvent(s, t));
    NotWrittenAppended(s.log, PrechargeEvent(s, t));
  }

  /** Waiting, nothing written, and the hold as it was. */
  ghost predicate Calm(c: Config, s: Hardware, held: Option<seq<Double>>)
    requires c.Shaped()
  {
    Waiting(c, s) && NotWritten(s.log) && Motion.LastHeld(s.log) == held
  }

  ghost function IsCalm(c: Config, held: Option<seq<Double>>): Hardware -> bool
    requires c.Shaped()
  {
    s => c.Shaped() && Calm(c, s, held)
  }

  lemma CalmIsPreserved(c: Config, held: Option<seq<Double>>)
    requires c.Shaped()
    ensures Preserved(c, IsCalm(c, held))
  {
    forall s, usable | Calm(c, s, held) ensures Calm(c, SeeFrame(c, s, usable), held) {
      SeeKeepsWaiting(c, s, usable);
    }
    forall s, t: Tick | Calm(c, s, held) && t.sequence != 0 ensures Calm(c, SendPrecharge(s, t), held) {
      PrechargeKeepsWaiting(c, s, t);
    }
  }

  lemma AwaitReadyIsCalm(c: Config, s: Hardware, polls: seq<Poll>)
    requires c.Shaped() && Waiting(c, s) && NotWritten(s.log)
    ensures var t := AwaitReady(c, s, polls, 0).0; Waiting(c, t) && NotWritten(t.log)
  {
    var held := Motion.LastHeld(s.log);
    CalmIsPreserved(c, held);
    AwaitReadyKeeps(c, IsCalm(c, held), s, polls, 0);
  }

  lemma StreamPrechargeIsCalm(c: Config, s: Hardware, ticks: seq<Tick>, nextAt: int)
    requires c.Shaped() && Waiting(c, s) && NotWritten(s.log)
    ensures var r := StreamPrecharge(c, s, ticks, nextAt, 0);
      Calm(c, r.0, Motion.LastHeld(s.log)) && Precharged(c, r.0, r.1)
  {
    var held := Motion.LastHeld(s.log);
    CalmIsPreserved(c, held);
    StreamPrechargeKeeps(c, IsCalm(c, held), s, ticks, nextAt, 0);
  }

  /** What activation has established when the first frame is queued. */
  ghost predicate Prepared(c: Config, s: Hardware)
    requires c.Shaped()
  {
    && Waiting(c, s) && NotWritten(s.log) && !s.active && !s.enableSent
    && s.safeHold.Shaped() && AllFinite(s.safeHold.position)
    && Motion.LastHeld(s.log) == Some(s.safeHold.position)
    && (c.power ==> BeginOk(s.safeHold, c.limits, c.tolerance) &&
                    s.recovery == BeginRecovery(s.safeHold, c.limits, c.tolerance))
  }

  lemma AdoptKeepsWaiting(c: Config, s: Hardware, f: Feedback, stored: bool)
    requires c.Shaped() && s.Shaped() && f.Shaped() && Waiting(c, s) && NotWritten(s.log)
    ensures var r := AdoptHold(s, f, stored);
      && Waiting(c, r.0) && NotWritten(r.0.log)
      && (r.1 ==> AllFinite(r.0.safeHold.position) && Motion.LastHeld(r.0.log) == Some(r.0.safeHold.position))
  {
    if f.position.Some? {
      PowerTrace.NeutralAppend(c, s.arm, s.log, Held(f.position.value));
      PowerTrace.Appended(s.log, Held(f.position.value), c.required);
      Motion.Appended(s.log, Held(f.position.value));
      NotWrittenAppended(s.log, Held(f.position.value));
    }
  }

  lemma PrechargePrepares(c: Config, s: Hardware, f: Feedback, i: ActivationInput)
    requires c.Shaped() && s.Shaped() && f.Shaped() && c.power && !s.active && !s.enableSent
    requires Waiting(c, s) && NotWritten(s.log)
    ensures var r := Precharge(c, s, f, i);
      && Waiting(c, r.0) && NotWritten(r.0.log)
      && (r.1.Some? ==> Prepared(c, r.0)) && Precharged(c, r.0, r.1)
  {
    AdoptKeepsWaiting(c, s, f, i.stored);
    var held := AdoptHold(s, f, i.stored).0;
    if AdoptHold(s, f, i.stored).1 && BeginOk(held.safeHold, c.limits, c.tolerance) {
      var guarded := held.(recovery := BeginRecovery(held.safeHold, c.limits, c.tolerance));
      StreamPrechargeChanges(c, guarded, i.ticks, i.startedAt, 0);
      StreamPrechargeIsCalm(c, guarded, i.ticks, i.startedAt);
    }
  }

  lemma ClearedIsWaiting(c: Config, s: Hardware)
    requires c.Shaped()
    ensures Waiting(c, Cleared(s)) && NotWritten(Cleared(s).log)
  {}

  /** The first frame is earned by the precharge, or is a power-off frame. */
  lemma FirstFrameKeepsTrace(c: Config, s: Hardware, at: int, written: set<nat>, sequence: nat)
    requires c.Shaped() && Waiting(c, s)
    requires c.power ==> PrechargeCompleted(s.arm, c.precharge, at, WriteCompleted(s.arm.pending, written))
    requires !c.power ==> s.arm == RESET_SEQUENCE
    ensures var log := s.log + [FirstFrame(c, s, at, written, sequence)];
      var arm := if c.power then MarkEnabled(s.arm) else s.arm;
      PowerTrace.TraceOk(c, log) && PowerTrace.ArmInv(c, arm, log) && PowerTrace.FlagInv(arm, log)
  {
    var e := FirstFrame(c, s, at, written, sequence);
    if c.power {
      PowerTrace.EnabledKeepsInv(c, MarkEnabled(s.arm), s.log, e);
    } else {
      PowerTrace.PowerOffKeepsInv(c, s.log, e);
    }
  }

  /** Three of the four invariants; the fourth, of the release protocol, is about one joint. */
  ghost predicate Safe(c: Config, s: Hardware)
    requires c.Shaped()
  {
    && PowerTrace.Inv(c, s)
    && Motion.Inv(Motion.Near(c.limits.velocity), s)
    && LimitKeeping.Inv(c, s)
  }

  lemma {:induction false} NotWrittenIsSafe(c: Config, near: Motion.Nearness, log: seq<Event>)
    requires c.Shaped() && NotWritten(log)
    ensures Motion.MotionTrace(near, log) && Motion.RunHead(log).None?
    ensures LimitKeeping.FramesInRange(c, log) && LimitKeeping.InwardTrace(c, log)
    decreases |log|
  {
    if log != [] {
      NotWrittenIsSafe(c, near, log[..|log| - 1]);
    }
  }

  lemma {:induction false} NotWrittenNeverEnters(k: Release.Case, log: seq<Event>)
    requires k.Valid() && NotWritten(log)
    ensures Release.FirstEntry(k, log).None? && Release.FirstConfirmation(k, log).None?
    ensures Release.FirstRelease(k, log).None? && Release.DirectionTrace(k, log)
    decreases |log|
  {
    if log != [] {
      NotWrittenNeverEnters(k, log[..|log| - 1]);
    }
  }

  lemma BeginGuards(c: Config, measured: Command)
    requires c.Shaped() && measured.Shaped() && BeginOk(measured, c.limits, c.tolerance)
    ensures var r := BeginRecovery(measured, c.limits, c.tolerance);
      && LimitKeeping.Guarded(c, r) && LimitKeeping.SettledInRange(c, r, measured.position)
      && LimitKeeping.PositionInRange(c, measured.position)
  {
    forall j | 0 <= j < JOINTS
      ensures c.tolerance[j].Finite? && c.tolerance[j].v >= 0.0 && LimitKeeping.InRange(c, j, measured.position[j])
    {
      assert PlanJoint(measured.position[j], c.limits.lower[j], c.limits.upper[j], c.tolerance[j]).Planned?;
    }
  }

  lemma FirstFrameIsSafe(c: Config, s: Hardware, e: Event)
    requires c.Shaped() && Prepared(c, s) && e.Queued? && !e.byWrite && e.frame == s.safeHold
    ensures NotWritten(s.log + [e]) && Motion.LastHeld(s.log + [e]) == Some(s.safeHold.position)
    ensures LimitKeeping.Remembers(s.log + [e], s.safeHold)
  {
    NotWrittenAppended(s.log, e);
    Motion.Appended(s.log, e);
    LimitKeeping.Appended(c, s.log, e);
  }

  lemma FinishIsSafe(c: Config, s: Hardware, at: int, written: set<nat>, i: ActivationInput)
    requires c.Shaped() && s.Shaped() && Prepared(c, s)
    requires c.power ==> PrechargeCompleted(s.arm, c.precharge, at, WriteCompleted(s.arm.pending, written))
    requires !c.power ==> s.arm == RESET_SEQUENCE
    ensures Safe(c, Finish(c, s, at, written, i).0)
  {
    var near := Motion.Near(c.limits.velocity);
    if i.encoded && i.sequence != 0 {
      var e := FirstFrame(c, s, at, written, i.sequence);
      FirstFrameKeepsTrace(c, s, at, written, i.sequence);
      FirstFrameIsSafe(c, s, e);
      NotWrittenIsSafe(c, near, s.log + [e]);
      if c.power {
        BeginGuards(c, s.safeHold);
      }
    } else {
      NotWrittenIsSafe(c, near, s.log);
    }
  }

  lemma InactiveIsSafe(c: Config, s: Hardware)
    requires c.Shaped() && !s.active && Waiting(c, s) && NotWritten(s.log)
    ensures Safe(c, s)
  {
    NotWrittenIsSafe(c, Motion.Near(c.limits.velocity), s.log);
  }

  lemma PoweredActivationIsSafe(c: Config, s: Hardware, i: ActivationInput)
    requires c.Shaped() && s.Shaped() && i.Shaped() && c.power && !s.active && !s.enableSent
    requires Waiting(c, s) && NotWritten(s.log)
    ensures var r := PowerOnWithReadyArms(c, s, i);
      if r.1.None? then Safe(c, r.0) else Safe(c, Finish(c, r.0, r.1.value.now, r.1.value.written, i).0)
  {
    AwaitReadyChanges(c, s, i.polls, 0);
    AwaitReadyIsCalm(c, s, i.polls);
    var ready := AwaitReady(c, s, i.polls, 0);
    InactiveIsSafe(c, ready.0);
    if ready.1.Some? {
      PrechargePrepares(c, ready.0, ready.1.value, i);
      var r := Precharge(c, ready.0, ready.1.value, i);
      if r.1.Some? {
        FinishIsSafe(c, r.0, r.1.value.now, r.1.value.written, i);
      } else {
        PrechargeStaysInactive(c, ready.0, ready.1.value, i);
        InactiveIsSafe(c, r.0);
      }
    }
  }

  lemma PrechargeStaysInactive(c: Config, s: Hardware, f: Feedback, i: ActivationInput)
    requires c.Shaped() && s.Shaped() && f.Shaped()
    ensures Precharge(c, s, f, i).0.active == s.active
  {
    var held := AdoptHold(s, f, i.stored).0;
    if AdoptHold(s, f, i.stored).1 && BeginOk(held.safeHold, c.limits, c.tolerance) {
      var guarded := held.(recovery := BeginRecovery(held.safeHold, c.limits, c.tolerance));
      StreamPrechargeChanges(c, guarded, i.ticks, i.startedAt, 0);
    }
  }

  lemma PowerlessActivationIsSafe(c: Config, s: Hardware, i: ActivationInput)
    requires c.Shaped() && s.Shaped() && i.Shaped() && !c.power && !s.active && !s.enableSent
    requires Waiting(c, s) && NotWritten(s.log) && s.arm == RESET_SEQUENCE
    ensures var r := HoldWithoutPower(c, s, i);
      if !r.1 then Safe(c, r.0) else Safe(c, Finish(c, r.0, i.polls[0].now, {}, i).0)
  {
    InactiveIsSafe(c, s);
    if i.polls != [] && i.polls[0].feedback.Some? {
      AdoptKeepsWaiting(c, s, i.polls[0].feedback.value, i.stored);
      var held := AdoptHold(s, i.polls[0].feedback.value, i.stored);
      InactiveIsSafe(c, held.0);
      if held.1 {
        FinishIsSafe(c, held.0, i.polls[0].now, {}, i);
      }
    }
  }

  lemma ActivateIsSafe(c: Config, s: Hardware, i: ActivationInput)
    requires c.Shaped() && s.Shaped() && i.Shaped() && !s.active
    ensures Safe(c, Activate(c, s, i).0)
  {
    ClearedIsWaiting(c, s);
    if c.power {
      PoweredActivationIsSafe(c, Cleared(s), i);
    } else {
      PowerlessActivationIsSafe(c, Cleared(s), i);
    }
  }

  // ----- runs keep them -----

  lemma ReachingKeepsSafe(c: Config, s: Hardware, t: Hardware)
    requires c.Shaped() && AllFinite(c.limits.velocity) && Reaches(c, s, t) && Safe(c, s)
    ensures Safe(c, t)
  {
    var labels :| Chain(c, s, t, labels);
    Motion.NearHasLaws(c.limits);
    PowerTrace.ChainKeepsInv(c, s, t, labels);
    Motion.ChainKeepsInv(c, Motion.Near(c.limits.velocity), s, t, labels);
    LimitKeeping.ChainKeepsInv(c, s, t, labels);
  }

  /** `on_init` has accepted the limits, and the hardware is not active yet. */
  ghost predicate Proper(c: Config, s: Hardware, a: ActivationInput, inputs: seq<Input>) {
    && c.Shaped() && AllFinite(c.limits.velocity)
    && s.Shaped() && !s.active && a.Shaped() && AllShaped(inputs)
  }

  /** The log of an activation followed by any calls of `read` and `write`. */
  ghost function Session(c: Config, s: Hardware, a: ActivationInput, inputs: seq<Input>): Hardware
    requires c.Shaped() && s.Shaped() && a.Shaped() && AllShaped(inputs)
  {
    After(c, Activate(c, s, a).0, inputs)
  }

  lemma SessionIsSafe(c: Config, s: Hardware, a: ActivationInput, inputs: seq<Input>)
    requires Proper(c, s, a, inputs)
    ensures Safe(c, Session(c, s, a, inputs))
  {
    ActivateIsSafe(c, s, a);
    RunReaches(c, Activate(c, s, a).0, inputs);
    ReachingKeepsSafe(c, Activate(c, s, a).0, Session(c, s, a, inputs));
  }

  // ----- main results -----

  /** An enabled frame follows an enabled one or a precharge, a precharge never follows an enabled
      one, and a change from precharge to enabled has been earned. */
  lemma ArmsAreEnabledOnlyWhenEarned(
    c: Config, s: Hardware, a: ActivationInput, inputs: seq<Input>, q: nat, k: nat)
    returns (g: nat, p: nat)
    requires Proper(c, s, a, inputs)
    requires var log := Session(c, s, a, inputs).log;
      k < |log| && log[k].Queued? && PowerTrace.Precedes(log, q, k)
    ensures var log := Session(c, s, a, inputs).log;
      && (log[k].flag == ACTIVE_CONTROL_FLAG ==>
            PowerTrace.Flag(log[q]) in {ACTIVE_CONTROL_FLAG, ARMS_DISABLED_CONTROL_FLAG})
      && (log[k].flag == ARMS_DISABLED_CONTROL_FLAG ==> PowerTrace.Flag(log[q]) != ACTIVE_CONTROL_FLAG)
      && (log[k].flag == ACTIVE_CONTROL_FLAG && PowerTrace.Flag(log[q]) == ARMS_DISABLED_CONTROL_FLAG ==>
            && g <= p <= q && PowerTrace.Unbroken(log[..k], g)
            && PowerTrace.Observations(log[..p]) - PowerTrace.Observations(log[..g]) >= c.required
            && PowerTrace.IsPrecharge(log[p]) && log[k].at - log[p].at >= c.precharge
            && log[q].Queued? && WriteCompleted(log[q].sequence, log[k].written))
  {
    SessionIsSafe(c, s, a, inputs);
    var log := Session(c, s, a, inputs).log;
    PowerTrace.FlagsInOrder(c, log, q, k);
    if log[k].flag == ACTIVE_CONTROL_FLAG && PowerTrace.IsPrecharge(log[q]) {
      g, p := PowerTrace.EnableIsEarned(c, log, q, k);
    } else {
      g, p := 0, 0;
    }
  }

  /** Every enabled frame of `write` belongs to a series that starts with the measured hold at rest,
      and keeps every joint within velocity limit times waited time of it. */
  lemma EnabledMotionIsBounded(c: Config, s: Hardware, a: ActivationInput, inputs: seq<Input>, k: nat)
    returns (h: nat)
    requires Proper(c, s, a, inputs)
    requires var log := Session(c, s, a, inputs).log; k < |log| && Motion.Drives(log[k])
    ensures Motion.BoundedFrom(c.limits.velocity, Session(c, s, a, inputs).log, h, k)
  {
    SessionIsSafe(c, s, a, inputs);
    h := Motion.DrivesAreBounded(c.limits.velocity, Session(c, s, a, inputs).log, k);
  }

  // ----- frames in range -----

  ghost function CaseOf(c: Config, start: seq<Direction>, j: nat): (k: Release.Case)
    requires c.Shaped() && |start| == JOINTS && j < JOINTS
    ensures k.Valid()
  {
    Release.Case(j, start[j], c.limits.lower[j], c.limits.upper[j])
  }

  /** Frame `k` is an enabled frame of `write`, and the frame before it is not. */
  ghost predicate Opens(log: seq<Event>, k: nat) {
    && k < |log| && Motion.Drives(log[k])
    && (PowerTrace.NewestFrame(log[..k]).Some? ==> !Motion.Drives(log[PowerTrace.NewestFrame(log[..k]).value]))
  }

  /** When an enabled frame opens a series, the latest measurement of every joint that is still
      recovering is in range. All of this has happened before the frame. */
  ghost predicate OpenedInRange(c: Config, start: seq<Direction>, log: seq<Event>, k: nat)
    requires c.Shaped() && |start| == JOINTS
  {
    Opens(log, k) ==>
      var held := Motion.LastHeld(log[..k]);
      && held.Some? && |held.value| == JOINTS
      && forall j | 0 <= j < JOINTS && start[j] != Settled && !Release.Released(CaseOf(c, start, j), log[..k]) ::
           LimitKeeping.InRange(c, j, held.value[j])
  }

  lemma {:induction false} RunGoesOnIff(log: seq<Event>)
    ensures Motion.RunHead(log).Some? <==>
      PowerTrace.NewestFrame(log).Some? && Motion.Drives(log[PowerTrace.NewestFrame(log).value])
    decreases |log|
  {
    if log != [] {
      RunGoesOnIff(log[..|log| - 1]);
    }
  }

  /** The direction in which each joint was sent is the one the events before call for. */
  ghost predicate Directed(c: Config, start: seq<Direction>, log: seq<Event>)
    requires c.Shaped() && |start| == JOINTS
  {
    forall j | 0 <= j < JOINTS :: Release.DirectionTrace(CaseOf(c, start, j), log)
  }

  lemma OpenedIffHeld(c: Config, start: seq<Direction>, log: seq<Event>, k: nat)
    requires c.Shaped() && |start| == JOINTS && k < |log|
    requires Motion.MotionTrace(Motion.Near(c.limits.velocity), log) && Directed(c, start, log)
    ensures OpenedInRange(c, start, log, k) <==> LimitKeeping.HoldInRange(c, log[k])
  {
    Motion.TraceAt(Motion.Near(c.limits.velocity), log, k);
    RunGoesOnIff(log[..k]);
    if Opens(log, k) {
      forall j: nat | j < JOINTS
        ensures |log[k].directions| == JOINTS
        ensures log[k].directions[j] ==
          if Release.Released(CaseOf(c, start, j), log[..k]) then Settled else start[j]
      {
        Release.TraceAt(CaseOf(c, start, j), log, k);
        Release.ReleasedIff(CaseOf(c, start, j), log[..k]);
      }
    }
  }

  ghost function StartOf(c: Config, s: Hardware, a: ActivationInput): (d: seq<Direction>)
    requires c.Shaped() && s.Shaped() && a.Shaped()
    ensures |d| == JOINTS
  {
    Directions(Activate(c, s, a).0.recovery)
  }

  lemma SessionIsDirected(c: Config, s: Hardware, a: ActivationInput, inputs: seq<Input>)
    requires Proper(c, s, a, inputs)
    ensures Directed(c, StartOf(c, s, a), Session(c, s, a, inputs).log)
  {
    var t0 := Activate(c, s, a).0;
    ActivatedJoints(c, s, a);
    RunReaches(c, t0, inputs);
    var labels :| Chain(c, t0, Session(c, s, a, inputs), labels);
    forall j: nat | j < JOINTS
      ensures Release.DirectionTrace(CaseOf(c, StartOf(c, s, a), j), Session(c, s, a, inputs).log)
    {
      var k := CaseOf(c, StartOf(c, s, a), j);
      NotWrittenNeverEnters(k, t0.log);
      Release.ChainKeepsInv(c, k, t0, Session(c, s, a, inputs), labels);
    }
  }

  /** Every frame of `write` stays within limits and tolerance exactly when, whenever an enabled frame
      opens a series, the latest measurement of every joint still recovering does. */
  lemma FramesStayInRangeIff(c: Config, s: Hardware, a: ActivationInput, inputs: seq<Input>)
    requires Proper(c, s, a, inputs)
    ensures var log := Session(c, s, a, inputs).log;
      LimitKeeping.FramesInRange(c, log) <==>
        forall k | 0 <= k < |log| :: OpenedInRange(c, StartOf(c, s, a), log, k)
  {
    var log := Session(c, s, a, inputs).log;
    SessionIsSafe(c, s, a, inputs);
    SessionIsDirected(c, s, a, inputs);
    RangeIffOpened(c, StartOf(c, s, a), log);
  }

  lemma RangeIffOpened(c: Config, start: seq<Direction>, log: seq<Event>)
    requires c.Shaped() && |start| == JOINTS && LimitKeeping.LogOk(c, log)
    requires Motion.MotionTrace(Motion.Near(c.limits.velocity), log) && Directed(c, start, log)
    ensures LimitKeeping.FramesInRange(c, log) <==> forall k | 0 <= k < |log| :: OpenedInRange(c, start, log, k)
  {
    LimitKeeping.InRangeIff(c, log);
    LimitKeeping.HoldsAt(c, log);
    forall k: nat | k < |log|
      ensures OpenedInRange(c, start, log, k) <==> LimitKeeping.HoldInRange(c, log[k])
    {
      OpenedIffHeld(c, start, log, k);
    }
  }

  /** Unless it is a hold, a frame moves every recovering joint inward from the frame before it,
      and never past the hard limit on the other side. */
  lemma RecoveryMovesInward(
    c: Config, s: Hardware, a: ActivationInput, inputs: seq<Input>, q: nat, k: nat, j: nat)
    requires Proper(c, s, a, inputs) && j < JOINTS
    requires var log := Session(c, s, a, inputs).log;
      k < |log| && log[k].Queued? && log[k].byWrite && !log[k].hold && PowerTrace.Precedes(log, q, k)
    ensures var log := Session(c, s, a, inputs).log;
      && log[q].Queued? && log[q].frame.Shaped() && log[k].frame.Shaped() && |log[k].directions| == JOINTS
      && LimitKeeping.Inward(log[k].directions[j], log[k].frame.position[j], log[q].frame.position[j],
                             c.limits.lower[j], c.limits.upper[j])
  {
    SessionIsSafe(c, s, a, inputs);
    var log := Session(c, s, a, inputs).log;
    LimitKeeping.InwardAt(c, log, k);
    PowerTrace.NewestIs(log[..k], q);
  }

  ghost predicate NoEntries(r: Recovery) {
    forall j | 0 <= j < JOINTS :: r[j].entry == 0 && !r[j].entryDone
  }

  ghost predicate Unentered(t: Hardware) {
    NotWritten(t.log) && (t.active ==> NoEntries(t.recovery))
  }

  lemma FinishIsUnentered(c: Config, s: Hardware, at: int, written: set<nat>, i: ActivationInput)
    requires s.Shaped() && !s.active && NotWritten(s.log) && NoEntries(s.recovery)
    ensures Unentered(Finish(c, s, at, written, i).0)
  {
    NotWrittenAppended(s.log, FirstFrame(c, s, at, written, i.sequence));
  }

  /** Whatever activation did, its recovery waits for a first entry command. */
  lemma ActivatedJoints(c: Config, s: Hardware, a: ActivationInput)
    requires c.Shaped() && s.Shaped() && a.Shaped() && !s.active
    ensures Unentered(Activate(c, s, a).0)
  {
    ClearedIsWaiting(c, s);
    if c.power {
      PoweredJoints(c, Cleared(s), a);
    } else {
      PowerlessJoints(c, Cleared(s), a);
    }
  }

  lemma PoweredJoints(c: Config, s: Hardware, a: ActivationInput)
    requires c.Shaped() && s.Shaped() && a.Shaped() && c.power && !s.active && !s.enableSent
    requires Waiting(c, s) && NotWritten(s.log)
    ensures var r := PowerOnWithReadyArms(c, s, a);
      if r.1.None? then Unentered(r.0)
      else Unentered(Finish(c, r.0, r.1.value.now, r.1.value.written, a).0)
  {
    AwaitReadyChanges(c, s, a.polls, 0);
    AwaitReadyIsCalm(c, s, a.polls);
    var ready := AwaitReady(c, s, a.polls, 0);
    if ready.1.Some? {
      PrechargePrepares(c, ready.0, ready.1.value, a);
      PrechargeStaysInactive(c, ready.0, ready.1.value, a);
      var r := Precharge(c, ready.0, ready.1.value, a);
      if r.1.Some? {
        FinishIsUnentered(c, r.0, r.1.value.now, r.1.value.written, a);
      }
    }
  }

  lemma PowerlessJoints(c: Config, s: Hardware, a: ActivationInput)
    requires c.Shaped() && s.Shaped() && a.Shaped() && !c.power && !s.active && s.recovery == IdleRecovery()
    requires Waiting(c, s) && NotWritten(s.log)
    ensures var r := HoldWithoutPower(c, s, a);
      if !r.1 then Unentered(r.0) else Unentered(Finish(c, r.0, a.polls[0].now, {}, a).0)
  {
    UnpoweredHold(c, s, a);
    if HoldWithoutPower(c, s, a).1 {
      FinishIsUnentered(c, HoldWithoutPower(c, s, a).0, a.polls[0].now, {}, a);
    }
  }

  lemma UnpoweredHold(c: Config, s: Hardware, a: ActivationInput)
    requires s.Shaped() && a.Shaped() && NotWritten(s.log)
    ensures var t := HoldWithoutPower(c, s, a).0;
      t.recovery == s.recovery && t.active == s.active && NotWritten(t.log)
  {
    if a.polls != [] && a.polls[0].feedback.Some? && a.polls[0].feedback.value.position.Some? {
      NotWrittenAppended(s.log, Held(a.polls[0].feedback.value.position.value));
    }
  }

  lemma ActivatedRecovery(c: Config, s: Hardware, a: ActivationInput)
    requires c.Shaped() && s.Shaped() && a.Shaped() && !s.active && c.power && Activate(c, s, a).1
    ensures var t := Activate(c, s, a).0;
      && t.active && NotWritten(t.log) && BeginOk(t.lastSent, c.limits, c.tolerance)
      && t.recovery == BeginRecovery(t.lastSent, c.limits, c.tolerance)
  {
    var s0 := Cleared(s);
    ClearedIsWaiting(c, s);
    AwaitReadyChanges(c, s0, a.polls, 0);
    AwaitReadyIsCalm(c, s0, a.polls);
    var ready := AwaitReady(c, s0, a.polls, 0);
    PrechargePrepares(c, ready.0, ready.1.value, a);
  }

  /** A joint that activation found outside its limits never stops recovering before the end of the
      three-step release protocol, whatever faults on the way; and while the hardware is active it
      has stopped recovering exactly from that end on. */
  lemma RecoveryEndsIffReleased(c: Config, s: Hardware, a: ActivationInput, inputs: seq<Input>, j: nat)
    requires Proper(c, s, a, inputs) && j < JOINTS
    requires c.power && Activate(c, s, a).1 && Activate(c, s, a).0.recovery[j].direction != Settled
    ensures var start := Activate(c, s, a).0.recovery[j].direction;
      var k := Release.Case(j, start, c.limits.lower[j], c.limits.upper[j]);
      var t := Session(c, s, a, inputs);
      && (t.recovery[j].direction == start || (t.recovery[j].direction == Settled && Release.Released(k, t.log)))
      && (t.active ==> t.recovery[j].direction == if Release.Released(k, t.log) then Settled else start)
  {
    var t0 := Activate(c, s, a).0;
    var t := Session(c, s, a, inputs);
    ActivatedRecovery(c, s, a);
    var k := Release.Case(j, t0.recovery[j].direction, c.limits.lower[j], c.limits.upper[j]);
    NotWrittenNeverEnters(k, t0.log);
    Release.RunEarns(c, k, t0, inputs);
    Release.ReleasedIff(k, t.log);
    if t.active {
      Release.SettledIff(k, t);
    }
  }

  /** Once a joint has stopped recovering it stays so, active or not, until the next activation. */
  lemma {:induction false} SettledStaysSettled(c: Config, s: Hardware, inputs: seq<Input>, j: nat)
    requires c.Shaped() && s.Shaped() && AllShaped(inputs) && j < JOINTS
    requires s.recovery[j].direction == Settled
    ensures After(c, s, inputs).recovery[j].direction == Settled
  {
    if inputs != [] {
      var init, last := inputs[..|inputs| - 1], inputs[|inputs| - 1];
      SettledStaysSettled(c, s, init, j);
      match last
      case ReadIn(read) => Release.ReadKeepsSettled(c, After(c, s, init), read, j);
      case WriteIn(write) => Release.WriteKeepsDirection(c, After(c, s, init), write, j);
      case ErrorIn =>
    }
  }

  // ----- faults -----

  lemma {:induction false} ChainFromInactive(c: Config, s: Hardware, t: Hardware, labels: seq<Small>)
    requires c.Shaped() && Chain(c, s, t, labels) && !s.active
    ensures !t.active && Quiet(s.log, t.log)
    decreases |labels|
  {
    if labels != [] {
      var u := Do(c, s, labels[0]);
      ChainFromInactive(c, u, t, labels[1..]);
      assert t.log[..|s.log|] == t.log[..|u.log|][..|s.log|];
      forall k | |s.log| <= k < |t.log| ensures !t.log[k].Queued? {
        if k < |u.log| {
          assert t.log[k] == t.log[..|u.log|][k];
        }
      }
    }
  }

  lemma InactiveStep(c: Config, s: Hardware, i: Input)
    requires c.Shaped() && s.Shaped() && i.Shaped() && !s.active
    ensures !Step(c, s, i).active
  {
    StepReaches(c, s, i);
    var labels :| Chain(c, s, Step(c, s, i), labels);
    ChainFromInactive(c, s, Step(c, s, i), labels);
  }

  /** Once inactive, the hardware never becomes active again by itself, and queues no frame but
      a power-off. */
  lemma FaultIsFinal(c: Config, s: Hardware, inputs: seq<Input>)
    requires c.Shaped() && s.Shaped() && AllShaped(inputs) && !s.active
    ensures !After(c, s, inputs).active && Quiet(s.log, After(c, s, inputs).log)
  {
    RunReaches(c, s, inputs);
    var labels :| Chain(c, s, After(c, s, inputs), labels);
    ChainFromInactive(c, s, After(c, s, inputs), labels);
  }

  ghost predicate PowersDown(s: Hardware, t: Hardware, queued: bool) {
    s.active && !t.active && queued ==> t.log != [] && t.log[|t.log| - 1].PowerOffQueued?
  }

  lemma ReadPowersDown(c: Config, s: Hardware, i: ReadInput)
    requires c.Shaped() && s.Shaped() && i.Shaped()
    ensures PowersDown(s, Read(c, s, i), i.powerOffQueued)
  {}

  lemma FramePowersDown(c: Config, s: Hardware, i: WriteInput)
    requires c.Shaped() && s.Shaped() && i.command.Some? && i.command.value.Shaped()
    ensures PowersDown(s, WriteFrame(c, s, i), i.powerOffQueued)
  {}

  lemma PassPowersDown(c: Config, s: Hardware, i: WriteInput)
    requires c.Shaped() && s.Shaped() && i.Shaped()
    ensures PowersDown(s, Pass(c, s, i), i.powerOffQueued)
  {
    if i.command.Some? {
      FramePowersDown(c, s, i);
    }
  }

  lemma WritePowersDown(c: Config, s: Hardware, i: WriteInput)
    requires c.Shaped() && s.Shaped() && i.Shaped()
    ensures PowersDown(s, Write(c, s, i), i.powerOffQueued)
  {
    if i.period.Finite? {
      PassPowersDown(c, AddPeriod(s, i), i);
    }
  }

  /** Whatever deactivates the hardware also asks for a power-off; when the transport takes it, it is
      the last frame. */
  lemma DeactivationPowersDown(c: Config, s: Hardware, i: Input)
    requires c.Shaped() && s.Shaped() && i.Shaped() && s.active && !Step(c, s, i).active
    requires match i
      case ReadIn(read) => read.powerOffQueued
      case WriteIn(write) => write.powerOffQueued
      case ErrorIn => true
    ensures var t := Step(c, s, i); t.log != [] && t.log[|t.log| - 1].PowerOffQueued?
  {
    match i
    case ReadIn(read) => ReadPowersDown(c, s, read);
    case WriteIn(write) => WritePowersDown(c, s, write);
    case ErrorIn =>
  }

  // ----- what the transport is asked for -----

  /** At most one frame, and after it at most a power-off. */
  ghost predicate AsksInOrder(before: seq<Asking>, after: seq<Asking>) {
    || after == before
    || after == before + [AsyncWrite]
    || after == before + [AsyncWritePowerOff]
    || after == before + [AsyncWrite] + [AsyncWritePowerOff]
  }

  ghost predicate AsksPowerOff(before: seq<Asking>, after: seq<Asking>) {
    after == before || after == before + [AsyncWritePowerOff]
  }

  lemma ReadAsks(c: Config, s: Hardware, i: ReadInput)
    requires c.Shaped() && s.Shaped() && i.Shaped()
    ensures AsksPowerOff(s.asked, Read(c, s, i).asked)
  {}

  lemma FrameAsks(c: Config, s: Hardware, i: WriteInput)
    requires c.Shaped() && s.Shaped() && i.command.Some? && i.command.value.Shaped()
    ensures AsksInOrder(s.asked, WriteFrame(c, s, i).asked)
  {}

  lemma PassAsks(c: Config, s: Hardware, i: WriteInput)
    requires c.Shaped() && s.Shaped() && i.Shaped()
    ensures AsksInOrder(s.asked, Pass(c, s, i).asked)
  {
    if i.command.Some? {
      FrameAsks(c, s, i);
    }
  }

  /** Only an active `write` hands over a frame, and none after a power-off. */
  lemma CallAsks(c: Config, s: Hardware, i: Input)
    requires c.Shaped() && s.Shaped() && i.Shaped()
    ensures AsksInOrder(s.asked, Step(c, s, i).asked)
    ensures (s.active && i.WriteIn?) || AsksPowerOff(s.asked, Step(c, s, i).asked)
  {
    if i.ReadIn? {
      ReadAsks(c, s, i.read);
    } else if i.WriteIn? && i.write.period.Finite? {
      PassAsks(c, AddPeriod(s, i.write), i.write);
    }
  }

  ghost predicate OnlyWrites(asked: seq<Asking>) {
    forall k | 0 <= k < |asked| :: asked[k] == AsyncWrite
  }

  lemma PowerOnAsks(c: Config, s: Hardware, i: ActivationInput)
    requires c.Shaped() && s.Shaped() && i.Shaped() && OnlyWrites(s.asked)
    ensures OnlyWrites(PowerOnWithReadyArms(c, s, i).0.asked)
  {
    var P := (t: Hardware) => OnlyWrites(t.asked);
    AwaitReadyKeeps(c, P, s, i.polls, 0);
    AwaitReadyChanges(c, s, i.polls, 0);
    var ready := AwaitReady(c, s, i.polls, 0);
    if ready.1.Some? {
      var held := AdoptHold(ready.0, ready.1.value, i.stored).0;
      if AdoptHold(ready.0, ready.1.value, i.stored).1 && BeginOk(held.safeHold, c.limits, c.tolerance) {
        StreamPrechargeKeeps(c, P, held.(recovery := BeginRecovery(held.safeHold, c.limits, c.tolerance)),
                             i.ticks, i.startedAt, 0);
      }
    }
  }

  /** Activation asks for no power-off. */
  lemma ActivationAsks(c: Config, s: Hardware, i: ActivationInput)
    requires c.Shaped() && s.Shaped() && i.Shaped()
    ensures OnlyWrites(Activate(c, s, i).0.asked)
  {
    PowerOnAsks(c, Cleared(s), i);
  }
}
