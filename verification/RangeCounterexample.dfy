/** A session in which a frame leaves the widened limits: while a joint recovers its measurement
    is not checked, and the first enabled frame repeats it. */
module RangeCounterexample {
  import opened CommandMailbox
  import opened Doubles
  import opened CommandSafety
  import opened ArmPowerOn
  import opened HardwareModel
  import opened Activation
  import opened HardwareSafety
  import LimitKeeping

  // The first joint of the right arm.
  const JOINT: nat := 8
  // 40 commands a second.
  const PERIOD: int := 25 * MILLISECOND

  function All(n: nat, v: real): (s: seq<Double>)
    ensures |s| == n && AllFinite(s)
  {
    seq(n, _ => Finite(v))
  }

  /** Every joint may move in [0.5, 1], the arms may start up to 0.002 outside. */
  function Example(): (c: Config)
    ensures c.Shaped() && AllFinite(c.limits.velocity)
  {
    Config(
      Limits(All(JOINTS, 0.5), All(JOINTS, 1.0), All(JOINTS, 1.0), All(HEAD, -1.0), All(HEAD, 1.0), All(HEAD, 1.0)),
      StandardTolerance(0.002, 0.001), PERIOD, 100 * MILLISECOND, true, DEFAULT_READY_FRAMES, DEFAULT_PRECHARGE)
  }

  lemma ExampleIsConfigurable()
    ensures Configurable(Example())
  {}

  /** What can be configured at all: the numbers `on_init` and the default sequence allow. */
  lemma ConfigurableBounds(c: Config)
    requires Configurable(c)
    ensures c.required == 5 && c.precharge == 10_000_000 && c.feedbackTimeout >= 1_000_000
    ensures c.tolerance[0] == Finite(0.0)
    ensures forall j | 1 <= j < 15 :: c.tolerance[j].Finite? && 0.0 <= c.tolerance[j].v <= 0.002
    ensures forall j | 15 <= j < 17 :: c.tolerance[j].Finite? && 0.0 <= c.tolerance[j].v <= 0.001
  {}

  /** All joints inside, but the one at `v`. */
  function Measurement(v: real): (s: seq<Double>)
    ensures |s| == JOINTS && AllFinite(s)
  {
    All(JOINTS, 0.75)[JOINT := Finite(v)]
  }

  function Frame(sequence: nat, at: int, v: real): (f: Feedback)
    ensures f.Shaped()
  {
    Feedback(sequence, at, true, Some(Measurement(v)), Some((Finite(0.0), Finite(0.0))))
  }

  // ----- activation -----

  /** From the `k`-th on: one usable frame each millisecond, with the joint 0.001 below its limit. */
  function Polls(k: nat): (p: seq<Poll>)
    requires k <= DEFAULT_READY_FRAMES
    ensures |p| == DEFAULT_READY_FRAMES - k && forall i | 0 <= i < |p| :: p[i].Shaped()
    decreases DEFAULT_READY_FRAMES - k
  {
    if k == DEFAULT_READY_FRAMES then []
    else [Poll(false, Some(Frame(k + 1, k * MILLISECOND, 0.499)), k * MILLISECOND)] + Polls(k + 1)
  }

  function Start(): (a: ActivationInput)
    ensures a.Shaped()
  {
    ActivationInput(Polls(0), true, 5 * MILLISECOND,
                    [Tick(5 * MILLISECOND, {}, true, 1, false, None), Tick(15 * MILLISECOND, {1}, true, 0, false, None)],
                    true, 2, 15 * MILLISECOND)
  }

  function StartHold(): (f: Command)
    ensures f.Shaped()
  {
    HoldCommand(Measurement(0.499), All(HEAD, 0.0))
  }

  function StartRecovery(): Recovery {
    var tolerance := StandardTolerance(0.002, 0.001);
    var r := seq(JOINTS, j requires 0 <= j < JOINTS =>
      Joint(if j == JOINT then Increasing else Settled, tolerance[j], 0, false, 0));
    assert |r| == JOINTS;
    r
  }

  lemma StartBegins()
    ensures BeginOk(StartHold(), Example().limits, Example().tolerance)
    ensures BeginRecovery(StartHold(), Example().limits, Example().tolerance) == StartRecovery()
  {}

  lemma {:induction false} GateIsReached(s: Hardware, k: nat)
    requires k < DEFAULT_READY_FRAMES && s.arm.stage == AwaitingReady && s.arm.consecutive == k
    ensures var r := AwaitReady(Example(), s, Polls(k), k);
      && r.1 == Some(Frame(DEFAULT_READY_FRAMES, 4 * MILLISECOND, 0.499))
      && r.0.arm.stage == ReadyForPrecharge && r.0.arm.latestReady && r.0.arm.consecutive == DEFAULT_READY_FRAMES
      && r.0 == s.(arm := r.0.arm, log := r.0.log)
      && s.log <= r.0.log && forall i | |s.log| <= i < |r.0.log| :: r.0.log[i].Observed?
    decreases DEFAULT_READY_FRAMES - k
  {
    var seen := SeeFrame(Example(), s, true);
    assert Polls(k)[1..] == Polls(k + 1);
    if k + 1 < DEFAULT_READY_FRAMES {
      GateIsReached(seen, k + 1);
    }
  }

  lemma PrechargeIsHeld(s: Hardware)
    requires s.Shaped() && s.arm.stage == ReadyForPrecharge && s.arm.latestReady
    ensures var t := StreamPrecharge(Example(), s, Start().ticks, Start().startedAt, 0);
      && t.1 == Some(Start().ticks[1]) && t.0.arm.stage == AwaitingCompletion
      && t.0 == s.(arm := t.0.arm, log := s.log + [PrechargeEvent(s, Start().ticks[0])], asked := s.asked + [AsyncWrite])
  {
    var c, ticks := Example(), Start().ticks;
    var sent := SendPrecharge(s, ticks[0]);
    var later := 5 * MILLISECOND + PERIOD;
    assert PrechargeTurn(c, s, ticks[0], 5 * MILLISECOND, 0) == (sent, Going(later, 0));
    assert ticks[1..] == [ticks[1]];
    assert PrechargeTurn(c, sent, ticks[1], later, 0) == (sent, Completed);
    assert StreamPrecharge(c, sent, ticks[1..], later, 0) == (sent, Some(ticks[1]));
  }

  /** Nothing has been sent by `write` yet, and the controllers ask for the hold. */
  ghost predicate Holding(s: Hardware) {
    && s.Shaped() && s.active && !s.serialFault && s.arm.stage == Enabled && !s.enableSent
    && s.lastSent == StartHold() && s.elapsed >= 0.0 && s.headHold == All(HEAD, 0.0)
    && s.recovery == StartRecovery()
  }

  lemma StartPowersOn(s: Hardware)
    requires s.Shaped() && !s.active && !s.serialFault
    ensures var t := PowerOnWithReadyArms(Example(), Cleared(s), Start());
      && t.1 == Some(Start().ticks[1]) && t.0.arm.stage == AwaitingCompletion && t.0.safeHold == StartHold()
      && t.0.recovery == StartRecovery() && t.0.headHold == All(HEAD, 0.0)
      && !t.0.serialFault && !t.0.enableSent
      && t.0.asked == [AsyncWrite] && t.0.log != []
      && (forall k | 0 <= k < |t.0.log| - 1 :: t.0.log[k].Observed? || t.0.log[k].Held?)
      && var e := t.0.log[|t.0.log| - 1];
         e.Queued? && e.flag == ARMS_DISABLED_CONTROL_FLAG && e.sequence == 1 && e.written == {}
  {
    StartBegins();
    GateIsReached(Cleared(s), 0);
    var ready := AwaitReady(Example(), Cleared(s), Polls(0), 0).0;
    var held := AdoptHold(ready, Frame(DEFAULT_READY_FRAMES, 4 * MILLISECOND, 0.499), true).0;
    assert held.safeHold == StartHold();
    PrechargeIsHeld(held.(recovery := StartRecovery()));
  }

  /** Observations and the measured hold, then the precharge frame, then the first enabled frame. */
  ghost predicate StartLog(log: seq<Event>) {
    && |log| >= 2
    && (forall k | 0 <= k < |log| - 2 :: log[k].Observed? || log[k].Held?)
    && (var e := log[|log| - 2];
        e.Queued? && e.flag == ARMS_DISABLED_CONTROL_FLAG && e.sequence == 1 && e.written == {})
    && (var e := log[|log| - 1];
        e.Queued? && e.flag == ACTIVE_CONTROL_FLAG && e.sequence == 2 && e.written == {1})
  }

  lemma StartIsHolding(s: Hardware)
    requires s.Shaped() && !s.active && !s.serialFault
    ensures var t := Activate(Example(), s, Start()).0;
      Holding(t) && t.wakeups == WAKEUP_FRAMES && t.lastStamp == 15 * MILLISECOND && StartLog(t.log)
      && t.asked == [AsyncWrite, AsyncWrite]
  {
    StartPowersOn(s);
  }

  // ----- one cycle: the joint is read as zero, the controllers ask for the hold -----

  function Stray(now: int, feedback: nat): (i: Input)
    ensures i.Shaped()
  {
    ReadIn(ReadInput(Some(Frame(feedback, now, 0.0)), now, true, {}, true))
  }

  lemma StrayIsHeld(s: Hardware, now: int, feedback: nat)
    requires Holding(s)
    ensures var t := Step(Example(), s, Stray(now, feedback));
      && Holding(t) && t.safeHold.position == Measurement(0.0)
      && t.wakeups == s.wakeups && t.lastStamp == s.lastStamp
  {
    var c := Example();
    var w := EntriesWritten(s.recovery, {});
    forall j: nat | j < JOINTS
      ensures MeasureAt(s.recovery, Measurement(0.0), c.limits, w, feedback, j) == Kept(s.recovery[j])
    {}
    assert MeasureOk(s.recovery, Measurement(0.0), c.limits, w, feedback);
    assert Measure(s.recovery, Measurement(0.0), c.limits, w, feedback) == s.recovery;
  }

  function Ask(now: int): (i: Input)
    ensures i.Shaped()
  {
    WriteIn(WriteInput(true, Finite(0.025), Some(StartHold()), now, true, Some(Finite(1.0)), true,
                       WAKEUP_FRAMES + 3, {}, true))
  }

  lemma HoldValidates()
    ensures ValidateOk(StartRecovery(), StartHold(), StartHold(), Example().limits)
  {}

  lemma WakeupPasses(s: Hardware)
    requires Holding(s) && s.wakeups > 0
    ensures var t := Step(Example(), s, Ask(s.lastStamp + PERIOD));
      && Holding(t) && t.safeHold == s.safeHold
      && t.wakeups == s.wakeups - 1 && t.lastStamp == s.lastStamp + PERIOD
  {
    HoldValidates();
  }

  /** Still waiting, `n` wakeup frames after `s`, with the stray measurement as the hold. */
  ghost predicate WaitingAfter(s: Hardware, n: nat, t: Hardware) {
    && Holding(t) && t.safeHold.position == Measurement(0.0)
    && t.wakeups == s.wakeups - n && t.lastStamp == s.lastStamp + n * PERIOD
  }

  // ----- cycles -----

  ghost predicate InputsShaped(inputs: nat -> Input) {
    forall k :: inputs(k).Shaped()
  }

  /** `n` times a reading and a command. */
  ghost function Cycles(read: nat -> Input, write: nat -> Input, n: nat): (s: seq<Input>)
    requires InputsShaped(read) && InputsShaped(write)
    ensures AllShaped(s)
  {
    if n == 0 then [] else Cycles(read, write, n - 1) + [read(n - 1)] + [write(n - 1)]
  }

  lemma AfterSnoc(c: Config, s: Hardware, inputs: seq<Input>, last: Input)
    requires c.Shaped() && s.Shaped() && AllShaped(inputs) && last.Shaped()
    ensures AllShaped(inputs + [last])
    ensures After(c, s, inputs + [last]) == Step(c, After(c, s, inputs), last)
  {
    assert (inputs + [last])[..|inputs|] == inputs;
  }

  lemma OneMoreCycle(c: Config, s: Hardware, read: nat -> Input, write: nat -> Input, n: nat)
    requires c.Shaped() && s.Shaped() && InputsShaped(read) && InputsShaped(write)
    ensures After(c, s, Cycles(read, write, n + 1))
         == Step(c, Step(c, After(c, s, Cycles(read, write, n)), read(n)), write(n))
  {
    AfterSnoc(c, s, Cycles(read, write, n), read(n));
    AfterSnoc(c, s, Cycles(read, write, n) + [read(n)], write(n));
  }

  ghost function Readings(stamp: int): (r: nat -> Input)
    ensures InputsShaped(r)
  {
    (k: nat) => Stray(stamp + (k + 1) * PERIOD, k + 6)
  }

  ghost function Commands(stamp: int): (r: nat -> Input)
    ensures InputsShaped(r)
  {
    (k: nat) => Ask(stamp + (k + 1) * PERIOD)
  }

  ghost function Waiting(s: Hardware): (nat, Hardware) -> bool {
    (n: nat, t: Hardware) => WaitingAfter(s, n, t)
  }

  lemma AskPasses(s: Hardware, n: nat, u: Hardware)
    requires WaitingAfter(s, n, u) && s.wakeups > n
    ensures var v := Step(Example(), u, Commands(s.lastStamp)(n));
      Holding(v) && v.wakeups == s.wakeups - (n + 1) && v.lastStamp == s.lastStamp + (n + 1) * PERIOD
  {
    assert u.lastStamp + PERIOD == s.lastStamp + (n + 1) * PERIOD;
    assert Commands(s.lastStamp)(n) == Ask(u.lastStamp + PERIOD);
    WakeupPasses(u);
  }

  lemma ReadingWaits(s: Hardware, n: nat, v: Hardware)
    requires Holding(v) && v.wakeups == s.wakeups - n && v.lastStamp == s.lastStamp + n * PERIOD
    ensures Waiting(s)(n, Step(Example(), v, Readings(s.lastStamp)(n)))
  {
    StrayIsHeld(v, s.lastStamp + (n + 1) * PERIOD, n + 6);
  }

  lemma CycleWaits(s: Hardware, n: nat, u: Hardware)
    requires Waiting(s)(n, u) && s.wakeups > n
    ensures Step(Example(), u, Commands(s.lastStamp)(n)).Shaped()
    ensures Waiting(s)(n + 1, Step(Example(), Step(Example(), u, Commands(s.lastStamp)(n)), Readings(s.lastStamp)(n + 1)))
  {
    AskPasses(s, n, u);
    ReadingWaits(s, n + 1, Step(Example(), u, Commands(s.lastStamp)(n)));
  }

  /** The state before the `n`-th command. */
  ghost function BeforeAsk(c: Config, s: Hardware, read: nat -> Input, write: nat -> Input, n: nat): (t: Hardware)
    requires c.Shaped() && s.Shaped() && InputsShaped(read) && InputsShaped(write)
    ensures t.Shaped()
  {
    Step(c, After(c, s, Cycles(read, write, n)), read(n))
  }

  lemma FirstAsk(c: Config, s: Hardware, P: (nat, Hardware) -> bool, read: nat -> Input, write: nat -> Input)
    requires c.Shaped() && s.Shaped() && InputsShaped(read) && InputsShaped(write)
    requires P(0, Step(c, s, read(0)))
    ensures P(0, BeforeAsk(c, s, read, write, 0))
  {
    assert After(c, s, []) == s;
  }

  lemma NextAsk(
    c: Config, s: Hardware, P: (nat, Hardware) -> bool, read: nat -> Input, write: nat -> Input, n: nat)
    requires c.Shaped() && s.Shaped() && InputsShaped(read) && InputsShaped(write)
    requires P(n + 1, Step(c, Step(c, BeforeAsk(c, s, read, write, n), write(n)), read(n + 1)))
    ensures P(n + 1, BeforeAsk(c, s, read, write, n + 1))
  {
    OneMoreCycle(c, s, read, write, n);
  }

  /** The first `n` commands have sent wakeup frames. */
  ghost function Passed(s: Hardware): nat -> bool {
    (n: nat) =>
      s.Shaped() &&
      Waiting(s)(n, BeforeAsk(Example(), s, Readings(s.lastStamp), Commands(s.lastStamp), n))
  }

  lemma NoWakeup(s: Hardware)
    requires Holding(s)
    ensures Passed(s)(0)
  {
    ReadingWaits(s, 0, s);
    FirstAsk(Example(), s, Waiting(s), Readings(s.lastStamp), Commands(s.lastStamp));
  }

  lemma OneMoreWakeup(s: Hardware, n: nat)
    requires s.wakeups > n && Passed(s)(n)
    ensures Passed(s)(n + 1)
  {
    CycleWaits(s, n, BeforeAsk(Example(), s, Readings(s.lastStamp), Commands(s.lastStamp), n));
    NextAsk(Example(), s, Waiting(s), Readings(s.lastStamp), Commands(s.lastStamp), n);
  }

  lemma {:induction false} CountUp(P: nat -> bool, n: nat)
    requires P(0) && forall k: nat | k < n && P(k) :: P(k + 1)
    ensures P(n)
  {
    if n > 0 {
      CountUp(P, n - 1);
      assert P(n - 1 + 1);
    }
  }

  lemma WakeupsPass(s: Hardware, n: nat)
    requires Holding(s) && s.wakeups >= n
    ensures Passed(s)(n)
  {
    NoWakeup(s);
    forall k: nat | k < n && Passed(s)(k) ensures Passed(s)(k + 1) {
      OneMoreWakeup(s, k);
    }
    CountUp(Passed(s), n);
  }

  // ----- the first enabled frame -----

  ghost predicate EndsWithHold(log: seq<Event>, position: seq<Double>) {
    && log != []
    && var e := log[|log| - 1];
       e.Queued? && e.byWrite && e.frame.position == position
  }

  lemma HoldIsSent(s: Hardware)
    requires Holding(s) && s.wakeups == 0
    ensures EndsWithHold(Step(Example(), s, Ask(s.lastStamp + PERIOD)).log, s.safeHold.position)
  {
    HoldValidates();
  }

  lemma EndsAfterCycle(
    c: Config, s: Hardware, read: nat -> Input, write: nat -> Input, n: nat, position: seq<Double>)
    requires c.Shaped() && s.Shaped() && InputsShaped(read) && InputsShaped(write)
    requires EndsWithHold(Step(c, BeforeAsk(c, s, read, write, n), write(n)).log, position)
    ensures EndsWithHold(After(c, s, Cycles(read, write, n + 1)).log, position)
  {
    OneMoreCycle(c, s, read, write, n);
  }

  lemma LastAskSendsHold(s: Hardware, n: nat, u: Hardware)
    requires Waiting(s)(n, u) && s.wakeups == n
    ensures EndsWithHold(Step(Example(), u, Commands(s.lastStamp)(n)).log, Measurement(0.0))
  {
    assert u.lastStamp + PERIOD == s.lastStamp + (n + 1) * PERIOD;
    assert Commands(s.lastStamp)(n) == Ask(u.lastStamp + PERIOD);
    HoldIsSent(u);
  }

  lemma CyclesSendHold(s: Hardware, n: nat)
    requires Holding(s) && s.wakeups == n
    ensures EndsWithHold(
      After(Example(), s, Cycles(Readings(s.lastStamp), Commands(s.lastStamp), n + 1)).log, Measurement(0.0))
  {
    var read, write := Readings(s.lastStamp), Commands(s.lastStamp);
    WakeupsPass(s, n);
    LastAskSendsHold(s, n, BeforeAsk(Example(), s, read, write, n));
    EndsAfterCycle(Example(), s, read, write, n, Measurement(0.0));
  }

  lemma StrayIsOutside(log: seq<Event>)
    requires EndsWithHold(log, Measurement(0.0))
    ensures !LimitKeeping.FramesInRange(Example(), log)
  {
    assert log[|log| - 1].frame.position[JOINT] == Finite(0.0);
    assert !LimitKeeping.InRange(Example(), JOINT, Finite(0.0));
  }

  /** The readings and commands after the activation. */
  ghost function Run(): (s: seq<Input>)
    ensures AllShaped(s)
  {
    Cycles(Readings(15 * MILLISECOND), Commands(15 * MILLISECOND), WAKEUP_FRAMES + 1)
  }

  /** With a configuration the hardware accepts: an arm joint starts 0.001 below its limit of 0.5 and
      is then read as zero in every cycle. The first frame that enables the arms sends it to zero. */
  lemma HoldLeavesRange(s: Hardware)
    requires s.Shaped() && !s.active && !s.serialFault
    ensures Configurable(Example()) && Proper(Example(), s, Start(), Run())
    ensures !LimitKeeping.FramesInRange(Example(), Session(Example(), s, Start(), Run()).log)
  {
    StartIsHolding(s);
    ExampleIsConfigurable();
    CyclesSendHold(Activate(Example(), s, Start()).0, WAKEUP_FRAMES);
    StrayIsOutside(Session(Example(), s, Start(), Run()).log);
  }
}
