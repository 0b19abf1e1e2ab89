/** When `on_activate` succeeds, said of what its two loops are shown: which feedback frames count at
    the gate, and which precharge frames, answers and faults decide the second phase. */
module ActivationOutcomes {
  import opened CommandMailbox
  import opened Doubles
  import opened CommandSafety
  import opened ArmPowerOn
  import opened HardwareModel
  import opened Activation
  import opened CallOutcomes

  // ----- the gate -----

  /** The sequence of the last frame shown before poll `k`. */
  function LastShown(polls: seq<Poll>, k: nat): nat
    requires k <= |polls|
  {
    if k == 0 then 0
    else if polls[k - 1].feedback.Some? then polls[k - 1].feedback.value.sequence
    else LastShown(polls, k - 1)
  }

  /** Poll `k` shows a frame that was not shown before, and is not too old. */
  predicate Counts(c: Config, polls: seq<Poll>, k: nat)
    requires k < |polls|
  {
    && polls[k].feedback.Some? && polls[k].feedback.value.sequence != LastShown(polls, k)
    && polls[k].now - polls[k].feedback.value.receivedAt <= c.feedbackTimeout
  }

  /** Usable frames in a row among those that count, before poll `k`. */
  function InARow(c: Config, polls: seq<Poll>, k: nat): nat
    requires k <= |polls|
  {
    if k == 0 then 0
    else if !Counts(c, polls, k - 1) then InARow(c, polls, k - 1)
    else if polls[k - 1].feedback.value.usable then InARow(c, polls, k - 1) + 1
    else 0
  }

  ghost predicate NoFault(polls: seq<Poll>, k: nat)
    requires k <= |polls|
  {
    forall x | 0 <= x < k :: !polls[x].fault
  }

  /** The gate opens at poll `k`. */
  ghost predicate OpensAt(c: Config, polls: seq<Poll>, k: nat) {
    && k < |polls| && NoFault(polls, k + 1) && Counts(c, polls, k) && polls[k].feedback.value.usable
    && InARow(c, polls, k + 1) >= c.required
  }

  ghost predicate FirstOpensAt(c: Config, polls: seq<Poll>, k: nat) {
    OpensAt(c, polls, k) && forall x: nat | x < k :: !OpensAt(c, polls, x)
  }

  /** What the first phase answers, and whether the hardware has been shown enough frames by then. */
  ghost predicate GateAnswers(c: Config, polls: seq<Poll>, i: nat, r: (Hardware, Option<Feedback>)) {
    match r.1
    case None => forall k: nat | k >= i :: !OpensAt(c, polls, k)
    case Some(f) =>
      && ReadyToPrecharge(c, r.0)
      && exists k: nat | k >= i ::
           && OpensAt(c, polls, k) && polls[k].feedback == Some(f)
           && forall x: nat | i <= x < k :: !OpensAt(c, polls, x)
  }

  ghost predicate ReadyToPrecharge(c: Config, s: Hardware) {
    s.arm.stage == ReadyForPrecharge && s.arm.latestReady && s.arm.consecutive >= c.required
  }

  ghost predicate Collecting(c: Config, s: Hardware, polls: seq<Poll>, i: nat)
    requires i <= |polls|
  {
    && s.arm.stage == AwaitingReady && s.arm.consecutive == InARow(c, polls, i) < c.required && NoFault(polls, i)
  }

  lemma GateNext(c: Config, s: Hardware, polls: seq<Poll>, i: nat)
    requires c.Shaped() && i < |polls| && Collecting(c, s, polls, i) && !polls[i].fault && Counts(c, polls, i)
    ensures var seen := SeeFrame(c, s, polls[i].feedback.value.usable);
      && (GatePassed(seen.arm, c.required) <==> OpensAt(c, polls, i))
      && (if OpensAt(c, polls, i) then ReadyToPrecharge(c, seen) else Collecting(c, seen, polls, i + 1))
  {}

  lemma {:induction false} GateFrom(c: Config, s: Hardware, polls: seq<Poll>, i: nat)
    requires c.Shaped() && i <= |polls| && Collecting(c, s, polls, i)
    ensures GateAnswers(c, polls, i, AwaitReady(c, s, polls[i..], LastShown(polls, i)))
    decreases |polls| - i
  {
    var r := AwaitReady(c, s, polls[i..], LastShown(polls, i));
    if i < |polls| && !polls[i].fault {
      assert polls[i..][1..] == polls[i + 1..];
      if !Counts(c, polls, i) {
        GateFrom(c, s, polls, i + 1);
        LaterAnswer(c, polls, i, r);
      } else {
        GateNext(c, s, polls, i);
        if !OpensAt(c, polls, i) {
          GateFrom(c, SeeFrame(c, s, polls[i].feedback.value.usable), polls, i + 1);
          LaterAnswer(c, polls, i, r);
        }
      }
    }
  }

  lemma LaterAnswer(c: Config, polls: seq<Poll>, i: nat, r: (Hardware, Option<Feedback>))
    requires GateAnswers(c, polls, i + 1, r) && !OpensAt(c, polls, i)
    ensures GateAnswers(c, polls, i, r)
  {
    if r.1.Some? {
      var k: nat :| k >= i + 1 && OpensAt(c, polls, k) && polls[k].feedback == r.1 &&
        forall x: nat | i + 1 <= x < k :: !OpensAt(c, polls, x);
      assert k >= i;
    }
  }

  /** The first phase ends with the frame that completes the required number of usable frames in a row,
      counting only fresh ones and each once; without one it fails. */
  lemma GateOpensIff(c: Config, s: Hardware, polls: seq<Poll>)
    requires c.Shaped() && s.arm == RESET_SEQUENCE
    ensures var r := AwaitReady(c, s, polls, 0);
      match r.1
      case None => forall k: nat :: !OpensAt(c, polls, k)
      case Some(f) => ReadyToPrecharge(c, r.0) && exists k: nat :: FirstOpensAt(c, polls, k) && polls[k].feedback == Some(f)
  {
    assert polls[0..] == polls;
    GateFrom(c, s, polls, 0);
    var r := AwaitReady(c, s, polls, 0);
    if r.1.Some? {
      var k: nat :| k >= 0 && OpensAt(c, polls, k) && polls[k].feedback == r.1 &&
        forall x: nat | 0 <= x < k :: !OpensAt(c, polls, x);
      assert FirstOpensAt(c, polls, k);
    }
  }

  // ----- the precharge -----

  /** When the next precharge frame is due, before tick `k`. */
  function DueFrom(c: Config, ticks: seq<Tick>, start: int, k: nat): int
    requires k <= |ticks|
    decreases k, 0
  {
    if k == 0 then start
    else if Sends(c, ticks, start, k - 1) then ticks[k - 1].now + c.commandPeriod
    else DueFrom(c, ticks, start, k - 1)
  }

  predicate Sends(c: Config, ticks: seq<Tick>, start: int, k: nat)
    requires k < |ticks|
    decreases k, 1
  {
    ticks[k].now >= DueFrom(c, ticks, start, k)
  }

  /** The first and the latest tick before `k` that sent a precharge frame. */
  function FirstSent(c: Config, ticks: seq<Tick>, start: int, k: nat): (r: Option<nat>)
    requires k <= |ticks|
    ensures r.Some? ==> r.value < k
  {
    if k == 0 then None
    else if FirstSent(c, ticks, start, k - 1).Some? then FirstSent(c, ticks, start, k - 1)
    else if Sends(c, ticks, start, k - 1) then Some(k - 1) else None
  }

  function LatestSent(c: Config, ticks: seq<Tick>, start: int, k: nat): (r: Option<nat>)
    requires k <= |ticks|
    ensures r.Some? ==> r.value < k
  {
    if k == 0 then None
    else if Sends(c, ticks, start, k - 1) then Some(k - 1) else LatestSent(c, ticks, start, k - 1)
  }

  function LastTold(ticks: seq<Tick>, k: nat): nat
    requires k <= |ticks|
  {
    if k == 0 then 0
    else if ticks[k - 1].feedback.Some? then ticks[k - 1].feedback.value.sequence
    else LastTold(ticks, k - 1)
  }

  /** The latest precharge frame has been written, and the first one is old enough. */
  predicate Completes(c: Config, ticks: seq<Tick>, start: int, k: nat)
    requires k < |ticks|
  {
    var first, latest := FirstSent(c, ticks, start, k), LatestSent(c, ticks, start, k);
    && first.Some? && latest.Some?
    && ticks[latest.value].sequence in ticks[k].written
    && ticks[k].now - ticks[first.value].now >= c.precharge
  }

  /** A frame that is due cannot be queued, the line fails, or a new frame shows the arms unusable. */
  predicate Fails(c: Config, ticks: seq<Tick>, start: int, k: nat)
    requires k < |ticks|
  {
    || (Sends(c, ticks, start, k) && !(ticks[k].encoded && ticks[k].sequence != 0))
    || ticks[k].fault
    || (ticks[k].feedback.Some? && ticks[k].feedback.value.sequence != LastTold(ticks, k)
        && !ticks[k].feedback.value.usable)
  }

  /** Tick `k` is where the second phase succeeds. */
  ghost predicate SucceedsAt(c: Config, ticks: seq<Tick>, start: int, k: nat) {
    && k < |ticks| && Completes(c, ticks, start, k)
    && forall x: nat | x < k :: !Completes(c, ticks, start, x) && !Fails(c, ticks, start, x)
  }

  /** What the arms remember before tick `i`. */
  ghost predicate Precharging(c: Config, s: Hardware, ticks: seq<Tick>, start: int, i: nat)
    requires i <= |ticks|
  {
    var first, latest := FirstSent(c, ticks, start, i), LatestSent(c, ticks, start, i);
    && s.arm.latestReady && s.arm.consecutive >= c.required
    && (first.Some? <==> latest.Some?)
    && (forall x: nat | x < i :: !Completes(c, ticks, start, x) && !Fails(c, ticks, start, x))
    && if first.Some? then
         && s.arm.stage == AwaitingCompletion && s.arm.startedAt == ticks[first.value].now
         && s.arm.pending == ticks[latest.value].sequence != 0
       else s.arm.stage == ReadyForPrecharge
  }

  lemma TurnEnds(c: Config, s: Hardware, ticks: seq<Tick>, start: int, i: nat)
    requires c.Shaped() && i < |ticks| && Precharging(c, s, ticks, start, i)
    requires Completes(c, ticks, start, i) || Fails(c, ticks, start, i)
    ensures PrechargeTurn(c, s, ticks[i], DueFrom(c, ticks, start, i), LastTold(ticks, i)).1 ==
      if Completes(c, ticks, start, i) then Completed else Aborted
  {}

  /** The arms before tick `i + 1`, once its frame has been sent. */
  lemma TickSends(c: Config, s: Hardware, ticks: seq<Tick>, start: int, i: nat)
    requires c.Shaped() && i < |ticks| && Precharging(c, s, ticks, start, i)
    requires !Completes(c, ticks, start, i) && !Fails(c, ticks, start, i)
    ensures Precharging(c, Streamed(s, ticks[i], DueFrom(c, ticks, start, i)), ticks, start, i + 1)
  {}

  lemma SeeingKeepsPrecharging(c: Config, s: Hardware, ticks: seq<Tick>, start: int, i: nat)
    requires c.Shaped() && i <= |ticks| && Precharging(c, s, ticks, start, i)
    ensures var seen := SeeFrame(c, s, true); GatePassed(seen.arm, c.required) && Precharging(c, seen, ticks, start, i)
  {}

  lemma TurnGoesOn(c: Config, s: Hardware, ticks: seq<Tick>, start: int, i: nat)
    requires c.Shaped() && i < |ticks| && Precharging(c, s, ticks, start, i)
    requires !Completes(c, ticks, start, i) && !Fails(c, ticks, start, i)
    ensures var turn := PrechargeTurn(c, s, ticks[i], DueFrom(c, ticks, start, i), LastTold(ticks, i));
      && turn.1 == Going(DueFrom(c, ticks, start, i + 1), LastTold(ticks, i + 1))
      && Precharging(c, turn.0, ticks, start, i + 1)
  {
    var sent := Streamed(s, ticks[i], DueFrom(c, ticks, start, i));
    TickSends(c, s, ticks, start, i);
    SeeingKeepsPrecharging(c, sent, ticks, start, i + 1);
  }

  lemma {:induction false} PrechargeFrom(c: Config, s: Hardware, ticks: seq<Tick>, start: int, i: nat)
    requires c.Shaped() && i <= |ticks| && Precharging(c, s, ticks, start, i)
    ensures match StreamPrecharge(c, s, ticks[i..], DueFrom(c, ticks, start, i), LastTold(ticks, i)).1
      case Some(t) => exists k: nat :: SucceedsAt(c, ticks, start, k) && ticks[k] == t
      case None => forall k: nat :: !SucceedsAt(c, ticks, start, k)
    decreases |ticks| - i
  {
    if i < |ticks| {
      assert ticks[i..][1..] == ticks[i + 1..];
      if Completes(c, ticks, start, i) {
        TurnEnds(c, s, ticks, start, i);
        assert SucceedsAt(c, ticks, start, i);
      } else if Fails(c, ticks, start, i) {
        TurnEnds(c, s, ticks, start, i);
      } else {
        TurnGoesOn(c, s, ticks, start, i);
        var turn := PrechargeTurn(c, s, ticks[i], DueFrom(c, ticks, start, i), LastTold(ticks, i));
        PrechargeFrom(c, turn.0, ticks, start, i + 1);
      }
    }
  }

  /** The second phase succeeds at the first tick that finds the latest precharge frame written and the
      first one old enough, unless an earlier tick failed. */
  lemma PrechargeSucceedsIff(c: Config, s: Hardware, ticks: seq<Tick>, start: int)
    requires c.Shaped() && ReadyToPrecharge(c, s)
    ensures match StreamPrecharge(c, s, ticks, start, 0).1
      case Some(t) => exists k: nat :: SucceedsAt(c, ticks, start, k) && ticks[k] == t
      case None => forall k: nat :: !SucceedsAt(c, ticks, start, k)
  {
    assert ticks[0..] == ticks;
    PrechargeFrom(c, s, ticks, start, 0);
  }

  // ----- activation -----

  /** A joint may start within its limits or, by its tolerance, outside. */
  predicate Startable(value: Double, lower: Double, upper: Double, tolerance: Double) {
    && value.Finite? && Ordered(lower, upper) && tolerance.Finite? && tolerance.v >= 0.0
    && lower.v - tolerance.v <= value.v <= upper.v + tolerance.v
  }

  /** The measured position can be taken over and held. */
  ghost predicate Adoptable(c: Config, f: Feedback, stored: bool)
    requires c.Shaped() && f.Shaped()
  {
    && f.position.Some? && f.head.Some? && stored
    && (forall j | 0 <= j < 17 ::
          Startable(f.position.value[j], c.limits.lower[j], c.limits.upper[j], c.tolerance[j]))
    && HeadReachable(f.head.value.0, c.limits.headLower[0], c.limits.headUpper[0])
    && HeadReachable(f.head.value.1, c.limits.headLower[1], c.limits.headUpper[1])
    && HeadReachable(Finite(0.0), c.limits.headLower[2], c.limits.headUpper[2])
  }

  lemma BeginOkIff(c: Config, f: Feedback)
    requires c.Shaped() && f.Shaped() && f.position.Some? && f.head.Some?
    ensures BeginOk(HoldCommand(f.position.value, [f.head.value.0, f.head.value.1, Finite(0.0)]), c.limits, c.tolerance)
      <==> Adoptable(c, f, true)
  {
    var hold := HoldCommand(f.position.value, [f.head.value.0, f.head.value.1, Finite(0.0)]);
    HoldReachableIff(c, hold);
    forall j: nat | j < JOINTS
      ensures PlanJoint(hold.position[j], c.limits.lower[j], c.limits.upper[j], c.tolerance[j]).Planned? <==>
        Startable(f.position.value[j], c.limits.lower[j], c.limits.upper[j], c.tolerance[j])
    {}
  }

  /** Second phase and gate frame as the code runs them. */
  lemma PrechargeAnswers(c: Config, s: Hardware, f: Feedback, i: ActivationInput)
    requires c.Shaped() && s.Shaped() && f.Shaped() && ReadyToPrecharge(c, s)
    ensures var r := Precharge(c, s, f, i).1;
      && (r.Some? <==> Adoptable(c, f, i.stored) && exists m: nat :: SucceedsAt(c, i.ticks, i.startedAt, m))
      && (r.Some? ==> exists m: nat :: SucceedsAt(c, i.ticks, i.startedAt, m) && i.ticks[m] == r.value)
  {
    if f.position.Some? && f.head.Some? {
      BeginOkIff(c, f);
      var held := AdoptHold(s, f, i.stored).0;
      if Adoptable(c, f, i.stored) {
        var guarded := held.(recovery := BeginRecovery(held.safeHold, c.limits, c.tolerance));
        PrechargeSucceedsIff(c, guarded, i.ticks, i.startedAt);
      }
    }
  }

  ghost predicate GateAdopts(c: Config, i: ActivationInput, k: nat)
    requires c.Shaped() && i.Shaped()
  {
    && FirstOpensAt(c, i.polls, k)
    && Adoptable(c, i.polls[k].feedback.value, i.stored)
  }

  lemma GateIsUnique(c: Config, polls: seq<Poll>, k: nat, x: nat)
    requires FirstOpensAt(c, polls, k) && FirstOpensAt(c, polls, x)
    ensures k == x
  {}

  /** With software power, activation succeeds exactly when the gate opens on a position that can be
      adopted, the precharge succeeds, and the first enabled frame is encoded and queued. */
  lemma PoweredActivationIff(c: Config, s: Hardware, i: ActivationInput)
    requires c.Shaped() && s.Shaped() && i.Shaped() && c.power
    ensures Activate(c, s, i).1 <==>
      && (exists k: nat :: GateAdopts(c, i, k)) && (exists m: nat :: SucceedsAt(c, i.ticks, i.startedAt, m))
      && i.encoded && i.sequence != 0
  {
    var r := AwaitReady(c, Cleared(s), i.polls, 0);
    GateOpensIff(c, Cleared(s), i.polls);
    AwaitReadyChanges(c, Cleared(s), i.polls, 0);
    if r.1.Some? {
      var k: nat :| FirstOpensAt(c, i.polls, k) && i.polls[k].feedback == r.1;
      PrechargeAnswers(c, r.0, r.1.value, i);
      if Adoptable(c, r.1.value, i.stored) {
        assert GateAdopts(c, i, k);
      } else {
        forall x: nat ensures !GateAdopts(c, i, x) {
          if GateAdopts(c, i, x) {
            GateIsUnique(c, i.polls, k, x);
          }
        }
      }
    }
  }

  /** Without software power one fresh frame that decodes is enough, and a power-off frame is queued. */
  lemma UnpoweredActivationIff(c: Config, s: Hardware, i: ActivationInput)
    requires c.Shaped() && s.Shaped() && i.Shaped() && !c.power
    ensures var r := Activate(c, s, i);
      && (r.1 <==>
            && i.polls != [] && !i.polls[0].fault && i.polls[0].feedback.Some?
            && i.polls[0].now - i.polls[0].feedback.value.receivedAt <= c.feedbackTimeout
            && i.polls[0].feedback.value.position.Some? && i.polls[0].feedback.value.head.Some?
            && i.stored && i.encoded && i.sequence != 0)
      && (r.1 ==> r.0.log != [] && r.0.log[|r.0.log| - 1].Queued? && r.0.log[|r.0.log| - 1].flag == 0x00)
  {}

  /** The joints outside their limits start to recover, inward. */
  ghost predicate StartsInward(c: Config, r: Recovery, position: seq<Double>)
    requires c.Shaped() && |position| == JOINTS
  {
    forall j | 0 <= j < 17 ::
      && position[j].Finite? && Ordered(c.limits.lower[j], c.limits.upper[j])
      && (r[j].direction == Increasing <==> position[j].v < c.limits.lower[j].v)
      && (r[j].direction == Decreasing <==> position[j].v > c.limits.upper[j].v)
      && r[j].tolerance == c.tolerance[j] && r[j].entry == 0
  }

  lemma BeginStartsInward(c: Config, hold: Command)
    requires c.Shaped() && hold.Shaped() && BeginOk(hold, c.limits, c.tolerance)
    ensures StartsInward(c, BeginRecovery(hold, c.limits, c.tolerance), hold.position)
  {
    var r := BeginRecovery(hold, c.limits, c.tolerance);
    forall j: nat | j < JOINTS
      ensures PlanJoint(hold.position[j], c.limits.lower[j], c.limits.upper[j], c.tolerance[j]).Planned?
    {}
  }

  lemma PrechargeAdopts(c: Config, s: Hardware, f: Feedback, i: ActivationInput)
    requires c.Shaped() && s.Shaped() && f.Shaped() && Precharge(c, s, f, i).1.Some?
    ensures var t := Precharge(c, s, f, i).0;
      && f.position.Some? && f.head.Some?
      && t.safeHold == HoldCommand(f.position.value, [f.head.value.0, f.head.value.1, Finite(0.0)])
      && StartsInward(c, t.recovery, f.position.value)
  {
    var held := AdoptHold(s, f, i.stored).0;
    var guarded := held.(recovery := BeginRecovery(held.safeHold, c.limits, c.tolerance));
    BeginStartsInward(c, held.safeHold);
    StreamPrechargeChanges(c, guarded, i.ticks, i.startedAt, 0);
  }

  /** A successful powered activation holds the position of the gate frame: that is the first enabled
      frame, the new hold and the start of every recovery. */
  lemma ActivationHoldsGateFrame(c: Config, s: Hardware, i: ActivationInput) returns (k: nat)
    requires c.Shaped() && s.Shaped() && i.Shaped() && c.power && Activate(c, s, i).1
    ensures GateAdopts(c, i, k)
    ensures var t := Activate(c, s, i).0; var f := i.polls[k].feedback.value;
      && t.active && t.wakeups == 200 && t.elapsed == 0.0 && t.lastStamp == i.stamp
      && t.stateFailures == 0 == t.commandFailures && t.lastSent == t.safeHold
      && t.safeHold.position == f.position.value && t.safeHold.head == [f.head.value.0, f.head.value.1, Finite(0.0)]
      && (forall x | 0 <= x < 3 :: t.safeHold.baseVelocity[x] == Finite(0.0))
      && StartsInward(c, t.recovery, f.position.value)
      && t.log != [] && var e := t.log[|t.log| - 1];
         e.Queued? && e.flag == 0x3D && e.sequence == i.sequence && e.frame == t.safeHold && !e.byWrite
  {
    var r := AwaitReady(c, Cleared(s), i.polls, 0);
    GateOpensIff(c, Cleared(s), i.polls);
    AwaitReadyChanges(c, Cleared(s), i.polls, 0);
    k :| FirstOpensAt(c, i.polls, k) && i.polls[k].feedback == r.1;
    PrechargeAnswers(c, r.0, r.1.value, i);
    PrechargeAdopts(c, r.0, r.1.value, i);
  }
}
