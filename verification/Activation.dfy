/** `on_activate` and `power_on_with_ready_arms`: what activation does to the fields, and that it
    hands over a state in which all the invariants hold. Each list of polls or ticks is what one
    timed loop sees before its deadline. */
module Activation {
  import opened CommandMailbox
  import opened Doubles
  import opened CommandSafety
  import opened ArmPowerOn
  import opened HardwareModel

  /** One turn of a loop that waits for feedback. */
  datatype Poll = Poll(fault: bool, feedback: Option<Feedback>, now: int) {
    predicate Shaped() { feedback.Some? ==> feedback.value.Shaped() }
  }

  /** One turn of the precharge loop. */
  datatype Tick = Tick(
    now: int, written: set<nat>, encoded: bool, sequence: nat, fault: bool, feedback: Option<Feedback>)

  datatype ActivationInput = ActivationInput(
    polls: seq<Poll>, stored: bool, startedAt: int, ticks: seq<Tick>, encoded: bool, sequence: nat, stamp: int)
  {
    predicate Shaped() { forall k | 0 <= k < |polls| :: polls[k].Shaped() }
  }

  /** Phase 1: polls until `required` usable frames in a row have been seen. */
  function AwaitReady(c: Config, s: Hardware, polls: seq<Poll>, observed: nat): (r: (Hardware, Option<Feedback>))
    decreases |polls|
  {
    if polls == [] then (s, None)
    else
      var p := polls[0];
      if p.fault then (s, None)
      else if p.feedback.None? || p.feedback.value.sequence == observed then AwaitReady(c, s, polls[1..], observed)
      else
        var f := p.feedback.value;
        if p.now - f.receivedAt > c.feedbackTimeout then AwaitReady(c, s, polls[1..], f.sequence)
        else
          var seen := SeeFrame(c, s, f.usable);
          if GatePassed(seen.arm, c.required) then (seen, Some(f))
          else AwaitReady(c, seen, polls[1..], f.sequence)
  }

  /** `adopt_measured_hold`. */
  function AdoptHold(s: Hardware, f: Feedback, stored: bool): (r: (Hardware, bool))
    requires s.Shaped() && f.Shaped()
    ensures r.0.Shaped()
  {
    if f.position.None? || f.head.None? then (s, false)
    else
      var headHold := [f.head.value.0, f.head.value.1, Finite(0.0)];
      (s.(headHold := headHold, safeHold := HoldCommand(f.position.value, headHold),
          log := s.log + [Held(f.position.value)]), stored)
  }

  function PrechargeEvent(s: Hardware, t: Tick): Event {
    Queued(ARMS_DISABLED_CONTROL_FLAG, t.now, t.sequence, s.safeHold, s.lastSent, false, false,
           Directions(s.recovery), t.written)
  }

  function SendPrecharge(s: Hardware, t: Tick): Hardware {
    s.(arm := NotePrecharge(s.arm, t.sequence, t.now), log := s.log + [PrechargeEvent(s, t)],
       asked := s.asked + [AsyncWrite])
  }

  /** A tick streams a frame when one is due. */
  function Streamed(s: Hardware, t: Tick, nextAt: int): Hardware {
    if t.now >= nextAt then SendPrecharge(s, t) else s
  }

  datatype Outcome = Completed | Aborted | Going(nextAt: int, observed: nat)

  function PrechargeTurn(c: Config, s: Hardware, t: Tick, nextAt: int, observed: nat): (Hardware, Outcome) {
    if PrechargeCompleted(s.arm, c.precharge, t.now, WriteCompleted(s.arm.pending, t.written)) then (s, Completed)
    else if t.now >= nextAt && !(t.encoded && t.sequence != 0) then (Ask(s, t.encoded), Aborted)
    else
      var sent := Streamed(s, t, nextAt);
      var later := if t.now >= nextAt then t.now + c.commandPeriod else nextAt;
      if t.fault then (sent, Aborted)
      else if t.feedback.None? || t.feedback.value.sequence == observed then (sent, Going(later, observed))
      else
        var seen := SeeFrame(c, sent, t.feedback.value.usable);
        (seen, if GatePassed(seen.arm, c.required) then Going(later, t.feedback.value.sequence) else Aborted)
  }

  /** Phase 2: streams precharge frames until one has been written and has been held long enough. */
  function StreamPrecharge(
    c: Config, s: Hardware, ticks: seq<Tick>, nextAt: int, observed: nat): (r: (Hardware, Option<Tick>))
    decreases |ticks|
  {
    if ticks == [] then (s, None)
    else
      var turn := PrechargeTurn(c, s, ticks[0], nextAt, observed);
      match turn.1
      case Completed => (turn.0, Some(ticks[0]))
      case Aborted => (turn.0, None)
      case Going(later, seen) => StreamPrecharge(c, turn.0, ticks[1..], later, seen)
  }

  function PowerOnWithReadyArms(c: Config, s: Hardware, i: ActivationInput): (r: (Hardware, Option<Tick>))
    requires c.Shaped() && s.Shaped() && i.Shaped()
    ensures r.0.Shaped()
  {
    var awaited := AwaitReady(c, s, i.polls, 0);
    AwaitReadyChanges(c, s, i.polls, 0);
    if awaited.1.None? then (awaited.0, None) else Precharge(c, awaited.0, awaited.1.value, i)
  }

  function Precharge(c: Config, s: Hardware, f: Feedback, i: ActivationInput): (r: (Hardware, Option<Tick>))
    requires c.Shaped() && s.Shaped() && f.Shaped()
    ensures r.0.Shaped()
  {
    var adopted := AdoptHold(s, f, i.stored);
    var held := adopted.0;
    if !adopted.1 then (held, None)
    else if !BeginOk(held.safeHold, c.limits, c.tolerance) then (held.(recovery := IdleRecovery()), None)
    else
      var guarded := held.(recovery := BeginRecovery(held.safeHold, c.limits, c.tolerance));
      StreamPrechargeChanges(c, guarded, i.ticks, i.startedAt, 0);
      StreamPrecharge(c, guarded, i.ticks, i.startedAt, 0)
  }

  /** Activation without software power: one fresh feedback frame is enough. */
  function HoldWithoutPower(c: Config, s: Hardware, i: ActivationInput): (r: (Hardware, bool))
    requires s.Shaped() && i.Shaped()
    ensures r.0.Shaped()
  {
    if i.polls == [] || i.polls[0].fault || i.polls[0].feedback.None? then (s, false)
    else
      var f := i.polls[0].feedback.value;
      if i.polls[0].now - f.receivedAt > c.feedbackTimeout then (s, false)
      else AdoptHold(s, f, i.stored)
  }

  function FirstFrame(c: Config, s: Hardware, at: int, written: set<nat>, sequence: nat): Event {
    Queued(if c.power then ACTIVE_CONTROL_FLAG else POWER_OFF_CONTROL_FLAG, at, sequence, s.safeHold, s.lastSent,
           false, false, Directions(s.recovery), written)
  }

  /** `at` is the last clock reading the power sequence has acted on. */
  function Finish(c: Config, s: Hardware, at: int, written: set<nat>, i: ActivationInput): (r: (Hardware, bool))
    requires s.Shaped()
    ensures r.0.Shaped()
  {
    if !(i.encoded && i.sequence != 0) then (Ask(s, i.encoded), false)
    else (HandOver(c, s, at, written, i), true)
  }

  /** The first frame has been queued; from here on `read` and `write` take over. */
  function HandOver(c: Config, s: Hardware, at: int, written: set<nat>, i: ActivationInput): (r: Hardware)
    requires s.Shaped()
    ensures r.Shaped()
  {
    s.(arm := if c.power then MarkEnabled(s.arm) else s.arm, lastStamp := i.stamp, lastSent := s.safeHold,
       elapsed := 0.0, stateFailures := 0, commandFailures := 0, active := true, wakeups := WAKEUP_FRAMES,
       log := s.log + [FirstFrame(c, s, at, written, i.sequence)], asked := s.asked + [AsyncWrite])
  }

  function Cleared(s: Hardware): Hardware {
    s.(recovery := IdleRecovery(), arm := RESET_SEQUENCE, enableSent := false, log := [], asked := [])
  }

  /** Both records start anew with every activation. */
  function Activate(c: Config, s: Hardware, i: ActivationInput): (r: (Hardware, bool))
    requires c.Shaped() && s.Shaped() && i.Shaped()
    ensures r.0.Shaped()
  {
    if c.power then
      var powered := PowerOnWithReadyArms(c, Cleared(s), i);
      if powered.1.None? then (powered.0, false)
      else Finish(c, powered.0, powered.1.value.now, powered.1.value.written, i)
    else
      var held := HoldWithoutPower(c, Cleared(s), i);
      if !held.1 then held else Finish(c, held.0, i.polls[0].now, {}, i)
  }

  // ----- what the loops leave alone -----

  lemma {:induction false} AwaitReadyChanges(c: Config, s: Hardware, polls: seq<Poll>, observed: nat)
    requires forall k | 0 <= k < |polls| :: polls[k].Shaped()
    ensures var r := AwaitReady(c, s, polls, observed);
      r.0 == s.(arm := r.0.arm, log := r.0.log) && (r.1.Some? ==> r.1.value.Shaped())
    decreases |polls|
  {
    if polls != [] && !polls[0].fault {
      var p := polls[0];
      if p.feedback.None? || p.feedback.value.sequence == observed {
        AwaitReadyChanges(c, s, polls[1..], observed);
      } else if p.now - p.feedback.value.receivedAt > c.feedbackTimeout {
        AwaitReadyChanges(c, s, polls[1..], p.feedback.value.sequence);
      } else {
        AwaitReadyChanges(c, SeeFrame(c, s, p.feedback.value.usable), polls[1..], p.feedback.value.sequence);
      }
    }
  }

  lemma TurnChanges(c: Config, s: Hardware, t: Tick, nextAt: int, observed: nat)
    ensures var u := PrechargeTurn(c, s, t, nextAt, observed).0; u == s.(arm := u.arm, log := u.log, asked := u.asked)
  {}

  lemma {:induction false} StreamPrechargeChanges(c: Config, s: Hardware, ticks: seq<Tick>, nextAt: int, observed: nat)
    ensures var t := StreamPrecharge(c, s, ticks, nextAt, observed).0; t == s.(arm := t.arm, log := t.log, asked := t.asked)
    decreases |ticks|
  {
    if ticks != [] {
      TurnChanges(c, s, ticks[0], nextAt, observed);
      var turn := PrechargeTurn(c, s, ticks[0], nextAt, observed);
      if turn.1.Going? {
        StreamPrechargeChanges(c, turn.0, ticks[1..], turn.1.nextAt, turn.1.observed);
      }
    }
  }

  // ----- what the loops keep -----

  /** Whatever survives an observation and a precharge, queued or refused, survives both loops. */
  ghost predicate Preserved(c: Config, P: Hardware -> bool) {
    && (forall s, usable :: P(s) ==> P(SeeFrame(c, s, usable)))
    && (forall s, t: Tick :: P(s) && t.sequence != 0 ==> P(SendPrecharge(s, t)))
    && (forall s, encoded :: P(s) ==> P(Ask(s, encoded)))
  }

  lemma {:induction false} AwaitReadyKeeps(
    c: Config, P: Hardware -> bool, s: Hardware, polls: seq<Poll>, observed: nat)
    requires Preserved(c, P) && P(s)
    ensures P(AwaitReady(c, s, polls, observed).0)
    decreases |polls|
  {
    if polls != [] && !polls[0].fault {
      var p := polls[0];
      if p.feedback.None? || p.feedback.value.sequence == observed {
        AwaitReadyKeeps(c, P, s, polls[1..], observed);
      } else if p.now - p.feedback.value.receivedAt > c.feedbackTimeout {
        AwaitReadyKeeps(c, P, s, polls[1..], p.feedback.value.sequence);
      } else {
        AwaitReadyKeeps(c, P, SeeFrame(c, s, p.feedback.value.usable), polls[1..], p.feedback.value.sequence);
      }
    }
  }

  /** The precharge loop reports success only on a tick that completes the pending precharge. */
  ghost predicate Precharged(c: Config, s: Hardware, tick: Option<Tick>) {
    tick.Some? ==>
      PrechargeCompleted(s.arm, c.precharge, tick.value.now, WriteCompleted(s.arm.pending, tick.value.written))
  }

  lemma {:induction false} StreamPrechargeKeeps(
    c: Config, P: Hardware -> bool, s: Hardware, ticks: seq<Tick>, nextAt: int, observed: nat)
    requires Preserved(c, P) && P(s)
    ensures var r := StreamPrecharge(c, s, ticks, nextAt, observed); P(r.0) && Precharged(c, r.0, r.1)
    decreases |ticks|
  {
    if ticks != [] {
      var turn := PrechargeTurn(c, s, ticks[0], nextAt, observed);
      if turn.1.Going? {
        StreamPrechargeKeeps(c, P, turn.0, ticks[1..], turn.1.nextAt, turn.1.observed);
      }
    }
  }
}
