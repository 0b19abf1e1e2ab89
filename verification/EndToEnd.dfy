/** The hardware object on top of the transport: its frames go into the mailbox, and what it believes
    written is what the mailbox answers. The two state machines run together here, over any number of
    sessions and with every lifecycle callback. */
module EndToEnd {
  import opened Crc16
  import opened FrameCodec
  import opened CommandMailbox
  import opened SerialTransport
  import opened TransportOutput
  import ArmPowerOn
  import HardwareModel
  import HardwareSteps
  import HardwareSafety
  import Activation
  import PowerTrace

  datatype HardwareCall =
    | Configuring
    | Activating(a: Activation.ActivationInput)
    | Cycling(i: HardwareModel.Input)
    | Halting(queued: bool)
    | CleaningUp
  {
    predicate Shaped() {
      (Activating? ==> a.Shaped()) && (Cycling? ==> i.Shaped())
    }
  }

  /** A run of the transport, and the calls made on the hardware during it: call `m` takes the
      hardware from `hw[m]` to `hw[m + 1]`, while the transport goes from state `from[m]` to `to[m]`. */
  datatype System = System(
    states: seq<Transport>, steps: seq<Step>,
    hw: seq<HardwareModel.Hardware>, calls: seq<HardwareCall>, from: seq<nat>, to: seq<nat>)
  {
    ghost predicate Shaped() {
      && Run(states, steps) && AllPowerOffsFlagged(steps)
      && |hw| == |calls| + 1 && |from| == |calls| == |to|
      && (forall m | 0 <= m < |hw| :: hw[m].Shaped())
      && (forall m | 0 <= m < |calls| :: calls[m].Shaped() && from[m] <= to[m] < |states|)
      && (forall m, n | 0 <= m < n < |calls| :: to[m] <= from[n])
    }
  }

  // ----- what the transport answers during one call -----

  /** Some time before `end` the mailbox answered that this frame was written. */
  ghost predicate SeenCompleted(y: System, m: nat, sequence: nat, end: nat)
    requires y.Shaped() && m < |y.calls| && end < |y.states|
  {
    exists w: nat | y.from[m] <= w <= end :: SequenceCompleted(y.states[w].mailbox, sequence)
  }

  /** The frame was pushed at step `p` and its call returned the sequence at step `x`. */
  ghost predicate QueuedAt(y: System, m: nat, e: HardwareModel.Event, p: nat, x: nat)
    requires y.Shaped() && m < |y.calls| && e.Queued?
  {
    && y.from[m] <= p < x < y.to[m]
    && NormalPushAt(y, p) && Flagged(y.states[p].call.frame, e.flag) && Push(y.states[p]).1 == e.sequence != 0
    && y.steps[x] == EndWrite && Returned(y.states[x]) == e.sequence
  }

  /** What was taken as written had been written before the frame was pushed. */
  ghost predicate QueuedIn(y: System, m: nat, e: HardwareModel.Event)
    requires y.Shaped() && m < |y.calls| && e.Queued?
  {
    exists p: nat, x: nat ::
      QueuedAt(y, m, e, p, x) && forall s | s in e.written :: SeenCompleted(y, m, s, p)
  }

  ghost predicate Answered(y: System, m: nat, e: HardwareModel.Event)
    requires y.Shaped() && m < |y.calls|
  {
    && (e.Queued? ==> QueuedIn(y, m, e))
    && (e.Measured? ==> forall s | s in e.written :: SeenCompleted(y, m, s, y.to[m]))
  }

  /** The first event that call `m` adds to the log; activation starts the log anew. */
  ghost function Base(y: System, m: nat): nat
    requires y.Shaped() && m < |y.calls|
  {
    if y.calls[m].Activating? then 0 else |y.hw[m].log|
  }

  // ----- what the transport is asked for during one call -----

  ghost predicate NormalPushAt(y: System, x: nat)
    requires y.Shaped()
  {
    x < |y.steps| && PushesNormal(y.states[x], y.steps[x])
  }

  ghost predicate PowerOffPushAt(y: System, x: nat)
    requires y.Shaped()
  {
    x < |y.steps| && PushesPowerOff(y.states[x], y.steps[x])
  }

  /** The pushes from state `i` to state `j`. */
  ghost function Pushes(y: System, i: nat, j: nat): (r: seq<HardwareModel.Asking>)
    requires y.Shaped() && i <= j < |y.states|
    decreases j
  {
    if i == j then []
    else
      var earlier := Pushes(y, i, j - 1);
      if NormalPushAt(y, j - 1) then earlier + [HardwareModel.AsyncWrite]
      else if PowerOffPushAt(y, j - 1) then earlier + [HardwareModel.AsyncWritePowerOff]
      else earlier
  }

  /** What the hardware has asked for in call `m`. */
  ghost predicate AskedIn(y: System, m: nat, asked: seq<HardwareModel.Asking>)
    requires y.Shaped() && m < |y.calls|
  {
    y.hw[m + 1].asked == (if y.calls[m].Activating? then [] else y.hw[m].asked) + asked
  }

  /** `some` is `all` with perhaps some entries missing. */
  ghost predicate Within(some: seq<HardwareModel.Asking>, all: seq<HardwareModel.Asking>)
    decreases |all|
  {
    if all == [] then some == []
    else
      var init, last := all[..|all| - 1], all[|all| - 1];
      Within(some, init) || (some != [] && some[|some| - 1] == last && Within(some[..|some| - 1], init))
  }

  // ----- a system -----

  ghost function Effect(c: HardwareModel.Config, s: HardwareModel.Hardware, call: HardwareCall): HardwareModel.Hardware
    requires c.Shaped() && s.Shaped() && call.Shaped()
  {
    match call
    case Configuring => HardwareModel.Configure(s)
    case Activating(a) => Activation.Activate(c, s, a).0
    case Cycling(i) => HardwareModel.Step(c, s, i)
    case Halting(queued) => HardwareModel.Halt(s, queued)
    case CleaningUp => HardwareModel.CleanUp(s)
  }

  /** Call `m` does to the hardware what the code does, given the transport's answers, and the pushes
      are what it asked for; not every frame asked for needs to get that far. */
  ghost predicate Performed(c: HardwareModel.Config, y: System, m: nat)
    requires c.Shaped() && y.Shaped() && m < |y.calls|
  {
    && (y.calls[m].Activating? ==> !y.hw[m].active)
    && y.hw[m + 1] == Effect(c, y.hw[m], y.calls[m])
    && (var log := y.hw[m + 1].log; forall k | Base(y, m) <= k < |log| :: Answered(y, m, log[k]))
    && exists asked :: AskedIn(y, m, asked) && Within(Pushes(y, y.from[m], y.to[m]), asked)
  }

  /** Nobody but the hardware pushes normal frames. */
  ghost predicate OnlyCalls(y: System)
    requires y.Shaped()
  {
    forall x: nat | NormalPushAt(y, x) :: exists m :: 0 <= m < |y.calls| && y.from[m] <= x < y.to[m]
  }

  ghost predicate Valid(c: HardwareModel.Config, y: System) {
    && c.Shaped() && y.Shaped() && OnlyCalls(y)
    && !y.hw[0].active && y.hw[0].log == []
    && forall m | 0 <= m < |y.calls| :: Performed(c, y, m)
  }

  /** The transport when the first `m` calls are over. */
  ghost function At(y: System, m: nat): Transport
    requires y.Shaped() && m <= |y.calls|
  {
    y.states[End(y, m)]
  }

  ghost function End(y: System, m: nat): (x: nat)
    requires y.Shaped() && m <= |y.calls|
    ensures x < |y.states|
  {
    if m == 0 then 0 else y.to[m - 1]
  }

  // ----- the log and the transport agree -----

  /** Frame `sequence` was written before frame `later` if that one was written at all. */
  ghost predicate WrittenBefore(t: Transport, n: nat, sequence: nat, later: nat) {
    && n < |t.sent| && t.sent[n].item.sequence == sequence
    && forall i | 0 <= i < |t.sent| && t.sent[i].item.sequence == later :: n < i
  }

  ghost predicate Ahead(t: Transport, sequence: nat, later: nat) {
    && sequence in t.pushed
    && (!t.pushed[sequence].powerOff ==> exists n: nat :: WrittenBefore(t, n, sequence, later))
  }

  /** The frame was pushed with its flag, and whatever was taken as written was written before. */
  ghost predicate Linked(t: Transport, e: HardwareModel.Event) {
    && (e.Queued? ==>
          && e.sequence in t.pushed && !t.pushed[e.sequence].powerOff
          && Flagged(t.pushed[e.sequence].frame, e.flag)
          && forall s | s in e.written :: s in t.completed && Ahead(t, s, e.sequence))
    && (e.Measured? ==> forall s | s in e.written :: s in t.completed)
  }

  ghost predicate AllLinked(t: Transport, log: seq<HardwareModel.Event>) {
    forall k | 0 <= k < |log| :: Linked(t, log[k])
  }

  lemma CompletedIsCompleted(y: System, m: nat, sequence: nat, end: nat)
    requires y.Shaped() && m < |y.calls| && end < |y.states| && SeenCompleted(y, m, sequence, end)
    ensures sequence in y.states[end].completed
  {
    var w: nat :| y.from[m] <= w <= end && SequenceCompleted(y.states[w].mailbox, sequence);
    HistoryAnswersAsASet(y.states, y.steps, w, sequence);
    GrowsRun(y.states, y.steps, w, end);
  }

  /** A completed normal frame is among those written, with the bytes that were pushed. */
  lemma SentAs(states: seq<Transport>, steps: seq<Step>, x: nat, sequence: nat) returns (n: nat)
    requires Run(states, steps) && x < |states|
    requires sequence in states[x].completed && sequence in states[x].pushed
    requires !states[x].pushed[sequence].powerOff
    ensures n < |states[x].sent| && states[x].sent[n].item.sequence == sequence
  {
    DeliveryRun(states, steps, x);
    var k :| 0 <= k < |states[x].completed| && states[x].completed[k] == sequence;
    assert Delivered(states[x], states[x].completed[k]);
    n :| 0 <= n < |states[x].sent| && states[x].sent[n].item.sequence == sequence;
  }

  /** Nothing written so far carries the sequence that the next push gets. */
  lemma NextIsUnsent(states: seq<Transport>, steps: seq<Step>, p: nat)
    requires Run(states, steps) && p < |states|
    ensures forall i | 0 <= i < |states[p].sent| :: states[p].sent[i].item.sequence < states[p].mailbox.next
  {
    RunKeepsInv(states, steps, p);
    IsolationRun(states, steps, p);
    forall i | 0 <= i < |states[p].sent| ensures states[p].sent[i].item.sequence < states[p].mailbox.next {
      assert SentRecordOk(states[p].sent[i], states[p].pushed);
    }
  }

  lemma CompletedIsAhead(y: System, p: nat, sequence: nat, later: nat)
    requires y.Shaped() && NormalPushAt(y, p) && Push(y.states[p]).1 == later != 0
    requires sequence in y.states[p].completed
    ensures Ahead(y.states[p], sequence, later)
  {
    var t := y.states[p];
    DeliveryRun(y.states, y.steps, p);
    var k :| 0 <= k < |t.completed| && t.completed[k] == sequence;
    assert Delivered(t, t.completed[k]);
    PushShape(t);
    NextIsUnsent(y.states, y.steps, p);
    if !t.pushed[sequence].powerOff {
      var n := SentAs(y.states, y.steps, p, sequence);
      assert WrittenBefore(t, n, sequence, later);
    }
  }

  lemma AheadGrows(t: Transport, u: Transport, sequence: nat, later: nat)
    requires Grows(t, u) && Ahead(t, sequence, later)
    ensures Ahead(u, sequence, later)
  {
    if !u.pushed[sequence].powerOff {
      var n: nat :| WrittenBefore(t, n, sequence, later);
      assert u.sent[n] == t.sent[n];
      forall i | 0 <= i < |u.sent| && u.sent[i].item.sequence == later ensures n < i {
        assert i < |t.sent| ==> u.sent[i] == t.sent[i];
      }
      assert WrittenBefore(u, n, sequence, later);
    }
  }

  lemma LinkedGrows(t: Transport, u: Transport, e: HardwareModel.Event)
    requires Grows(t, u) && Linked(t, e)
    ensures Linked(u, e)
  {
    if e.Queued? {
      forall s | s in e.written ensures s in u.completed && Ahead(u, s, e.sequence) {
        AheadGrows(t, u, s, e.sequence);
      }
    }
  }

  /** Right after its push the frame is linked. */
  lemma PushedIsLinked(y: System, m: nat, e: HardwareModel.Event, p: nat, x: nat)
    requires y.Shaped() && m < |y.calls| && e.Queued? && QueuedAt(y, m, e, p, x)
    requires forall s | s in e.written :: SeenCompleted(y, m, s, p)
    ensures Linked(y.states[p + 1], e)
  {
    var t, u := y.states[p], y.states[p + 1];
    RunStep(y.states, y.steps, p);
    GrowsStep(t, y.steps[p]);
    forall s | s in e.written ensures s in u.completed && Ahead(u, s, e.sequence) {
      CompletedIsCompleted(y, m, s, p);
      CompletedIsAhead(y, p, s, e.sequence);
      AheadGrows(t, u, s, e.sequence);
    }
  }

  lemma AnsweredIsLinked(y: System, m: nat, e: HardwareModel.Event)
    requires y.Shaped() && m < |y.calls| && Answered(y, m, e)
    ensures Linked(At(y, m + 1), e)
  {
    if e.Queued? {
      var p: nat, x: nat :| QueuedAt(y, m, e, p, x) && forall s | s in e.written :: SeenCompleted(y, m, s, p);
      PushedIsLinked(y, m, e, p, x);
      GrowsRun(y.states, y.steps, p + 1, y.to[m]);
      LinkedGrows(y.states[p + 1], At(y, m + 1), e);
    } else if e.Measured? {
      forall s | s in e.written ensures s in At(y, m + 1).completed {
        CompletedIsCompleted(y, m, s, y.to[m]);
      }
    }
  }

  lemma AtGrows(y: System, m: nat)
    requires y.Shaped() && m < |y.calls|
    ensures Grows(At(y, m), At(y, m + 1))
  {
    GrowsRun(y.states, y.steps, End(y, m), End(y, m + 1));
  }

  lemma EffectKeepsLog(c: HardwareModel.Config, s: HardwareModel.Hardware, call: HardwareCall)
    requires c.Shaped() && s.Shaped() && call.Shaped() && !call.Activating?
    ensures s.log <= Effect(c, s, call).log
  {
    if call.Cycling? {
      HardwareSteps.StepKeepsLog(c, s, call.i);
    }
  }

  lemma {:induction false} LogIsLinked(c: HardwareModel.Config, y: System, m: nat)
    requires Valid(c, y) && m <= |y.calls|
    ensures AllLinked(At(y, m), y.hw[m].log)
  {
    if m > 0 {
      LogIsLinked(c, y, m - 1);
      CallLinks(c, y, m - 1);
    }
  }

  lemma CallLinks(c: HardwareModel.Config, y: System, m: nat)
    requires Valid(c, y) && m < |y.calls| && AllLinked(At(y, m), y.hw[m].log)
    ensures AllLinked(At(y, m + 1), y.hw[m + 1].log)
  {
    assert Performed(c, y, m);
    AtGrows(y, m);
    var log := y.hw[m + 1].log;
    forall k | 0 <= k < |log| ensures Linked(At(y, m + 1), log[k]) {
      if k < Base(y, m) {
        EffectKeepsLog(c, y.hw[m], y.calls[m]);
        LinkedGrows(At(y, m), At(y, m + 1), log[k]);
      } else {
        AnsweredIsLinked(y, m, log[k]);
      }
    }
  }

  // ----- enabling follows a written precharge -----

  lemma EffectKeepsInv(c: HardwareModel.Config, s: HardwareModel.Hardware, call: HardwareCall)
    requires c.Shaped() && s.Shaped() && call.Shaped() && PowerTrace.Inv(c, s) && (call.Activating? ==> !s.active)
    ensures PowerTrace.Inv(c, Effect(c, s, call))
  {
    match call
    case Configuring =>
    case Activating(a) => HardwareSafety.ActivateIsSafe(c, s, a);
    case Cycling(i) => PowerTrace.CallKeepsInv(c, s, i);
    case Halting(queued) => PowerTrace.QuietKeepsTrace(c, s.log, HardwareModel.Halt(s, queued).log);
    case CleaningUp =>
  }

  lemma EmptyIsInOrder(c: HardwareModel.Config, s: HardwareModel.Hardware)
    requires !s.active && s.log == []
    ensures PowerTrace.Inv(c, s)
  {}

  lemma CallKeepsFlags(c: HardwareModel.Config, y: System, m: nat)
    requires c.Shaped() && y.Shaped() && m < |y.calls| && Performed(c, y, m) && PowerTrace.Inv(c, y.hw[m])
    ensures PowerTrace.Inv(c, y.hw[m + 1])
  {
    EffectKeepsInv(c, y.hw[m], y.calls[m]);
  }

  lemma {:induction false} KeptThroughout(hw: seq<HardwareModel.Hardware>, P: HardwareModel.Hardware -> bool, m: nat)
    requires m < |hw| && P(hw[0])
    requires forall k: nat | k < m && P(hw[k]) :: P(hw[k + 1])
    ensures P(hw[m])
  {
    if m > 0 {
      KeptThroughout(hw, P, m - 1);
      assert P(hw[m - 1 + 1]);
    }
  }

  lemma FlagsAreInOrder(c: HardwareModel.Config, y: System, m: nat)
    requires Valid(c, y) && m <= |y.calls|
    ensures PowerTrace.Inv(c, y.hw[m])
  {
    var P := (s: HardwareModel.Hardware) => PowerTrace.Inv(c, s);
    EmptyIsInOrder(c, y.hw[0]);
    forall k: nat | k < m && P(y.hw[k]) ensures P(y.hw[k + 1]) {
      assert Performed(c, y, k);
      CallKeepsFlags(c, y, k);
    }
    KeptThroughout(y.hw, P, m);
  }

  /** Whenever the arms were enabled after a precharge, that precharge frame was written to the line,
      and before the frame that enables them. */
  lemma EnableFollowsWrittenPrecharge(c: HardwareModel.Config, y: System, m: nat, q: nat, k: nat) returns (n: nat)
    requires Valid(c, y) && m <= |y.calls|
    requires var log := y.hw[m].log;
      && k < |log| && PowerTrace.Precedes(log, q, k) && PowerTrace.IsPrecharge(log[q])
      && log[k].Queued? && log[k].flag == ArmPowerOn.ACTIVE_CONTROL_FLAG
    ensures var sent := At(y, m).sent; var log := y.hw[m].log;
      && n < |sent| && sent[n].item.sequence == log[q].sequence
      && Flagged(sent[n].item.frame, ArmPowerOn.ARMS_DISABLED_CONTROL_FLAG)
      && forall i | 0 <= i < |sent| && sent[i].item.sequence == log[k].sequence :: n < i
  {
    var log, t := y.hw[m].log, At(y, m);
    FlagsAreInOrder(c, y, m);
    var g, p := PowerTrace.EnableIsEarned(c, log, q, k);
    LogIsLinked(c, y, m);
    assert Linked(t, log[k]) && Linked(t, log[q]);
    assert Ahead(t, log[q].sequence, log[k].sequence);
    n :| WrittenBefore(t, n, log[q].sequence, log[k].sequence);
    IsolationRun(y.states, y.steps, End(y, m));
    assert SentRecordOk(t.sent[n], t.pushed);
  }

  // ----- who pushes -----

  lemma {:induction false} WithinKeepsNone(some: seq<HardwareModel.Asking>, all: seq<HardwareModel.Asking>)
    requires Within(some, all) && HardwareModel.AsyncWrite !in all
    ensures HardwareModel.AsyncWrite !in some
    decreases |all|
  {
    if all != [] {
      var init := all[..|all| - 1];
      if Within(some, init) {
        WithinKeepsNone(some, init);
      } else {
        WithinKeepsNone(some[..|some| - 1], init);
      }
    }
  }

  /** After a power-off, nothing but power-offs. */
  ghost predicate PowerOffsLast(asked: seq<HardwareModel.Asking>) {
    forall i, j | 0 <= i < j < |asked| && asked[i] == HardwareModel.AsyncWritePowerOff :: asked[j] == asked[i]
  }

  lemma {:induction false} WithinKeepsOrder(some: seq<HardwareModel.Asking>, all: seq<HardwareModel.Asking>)
    requires Within(some, all) && PowerOffsLast(all)
    ensures PowerOffsLast(some)
    decreases |all|
  {
    if all != [] {
      var init := all[..|all| - 1];
      if Within(some, init) {
        WithinKeepsOrder(some, init);
      } else {
        WithinKeepsOrder(some[..|some| - 1], init);
        if all[|all| - 1] == HardwareModel.AsyncWrite {
          NoPowerOffWithin(some[..|some| - 1], init);
        }
      }
    }
  }

  lemma {:induction false} NoPowerOffWithin(some: seq<HardwareModel.Asking>, all: seq<HardwareModel.Asking>)
    requires Within(some, all) && HardwareModel.AsyncWritePowerOff !in all
    ensures HardwareModel.AsyncWritePowerOff !in some
    decreases |all|
  {
    if all != [] {
      var init := all[..|all| - 1];
      if Within(some, init) {
        NoPowerOffWithin(some, init);
      } else {
        NoPowerOffWithin(some[..|some| - 1], init);
      }
    }
  }

  lemma {:induction false} PushesGrow(y: System, i: nat, x: nat, j: nat)
    requires y.Shaped() && i <= x <= j < |y.states|
    ensures Pushes(y, i, x) <= Pushes(y, i, j)
    decreases j
  {
    if x < j {
      PushesGrow(y, i, x, j - 1);
    }
  }

  /** Where the push of step `x` stands among the pushes. */
  lemma PushIndex(y: System, i: nat, x: nat, j: nat)
    requires y.Shaped() && i <= x < j < |y.states| && (NormalPushAt(y, x) || PowerOffPushAt(y, x))
    ensures var p := |Pushes(y, i, x)|;
      && p < |Pushes(y, i, x + 1)| <= |Pushes(y, i, j)|
      && Pushes(y, i, j)[p] == if NormalPushAt(y, x) then HardwareModel.AsyncWrite else HardwareModel.AsyncWritePowerOff
  {
    PushesGrow(y, i, x + 1, j);
  }

  /** What the hardware asks for in one call. */
  lemma CallAsks(c: HardwareModel.Config, y: System, m: nat, asked: seq<HardwareModel.Asking>)
    requires Valid(c, y) && m < |y.calls| && AskedIn(y, m, asked)
    ensures PowerOffsLast(asked)
    ensures y.calls[m].Activating? || (y.calls[m].Cycling? && y.calls[m].i.WriteIn? && y.hw[m].active)
      || HardwareModel.AsyncWrite !in asked
  {
    assert Performed(c, y, m);
    match y.calls[m]
    case Activating(a) =>
      HardwareSafety.ActivationAsks(c, y.hw[m], a);
      assert asked == y.hw[m + 1].asked;
    case Cycling(i) =>
      HardwareSafety.CallAsks(c, y.hw[m], i);
      AddedInOrder(y.hw[m].asked, asked);
    case _ => AddedInOrder(y.hw[m].asked, asked);
  }

  lemma AddedInOrder(before: seq<HardwareModel.Asking>, asked: seq<HardwareModel.Asking>)
    ensures HardwareSafety.AsksInOrder(before, before + asked) ==> PowerOffsLast(asked)
    ensures HardwareSafety.AsksPowerOff(before, before + asked) || before + asked == before ==>
      PowerOffsLast(asked) && HardwareModel.AsyncWrite !in asked
  {
    assert asked == (before + asked)[|before|..];
  }

  /** Only an activation and an active `write` push normal frames, and nothing after a power-off. */
  ghost predicate PushesAllowed(y: System, m: nat)
    requires y.Shaped() && m < |y.calls|
  {
    && (forall x: nat | y.from[m] <= x < y.to[m] && NormalPushAt(y, x) ::
          y.calls[m].Activating? || (y.calls[m].Cycling? && y.calls[m].i.WriteIn? && y.hw[m].active))
    && (forall x: nat, z: nat | y.from[m] <= x < z < y.to[m] && PowerOffPushAt(y, x) :: !NormalPushAt(y, z))
  }

  lemma CallsPushAllowed(c: HardwareModel.Config, y: System, m: nat)
    requires Valid(c, y) && m < |y.calls|
    ensures PushesAllowed(y, m)
  {
    assert Performed(c, y, m);
    var i, j := y.from[m], y.to[m];
    var asked :| AskedIn(y, m, asked) && Within(Pushes(y, i, j), asked);
    CallAsks(c, y, m, asked);
    WithinKeepsOrder(Pushes(y, i, j), asked);
    forall x: nat | i <= x < j && NormalPushAt(y, x)
      ensures y.calls[m].Activating? || (y.calls[m].Cycling? && y.calls[m].i.WriteIn? && y.hw[m].active)
    {
      PushIndex(y, i, x, j);
      if HardwareModel.AsyncWrite !in asked {
        WithinKeepsNone(Pushes(y, i, j), asked);
      }
    }
    forall x: nat, z: nat | i <= x < z < j && PowerOffPushAt(y, x) ensures !NormalPushAt(y, z) {
      if NormalPushAt(y, z) {
        PushIndex(y, i, x, j);
        PushIndex(y, i, z, j);
        PushesGrow(y, i, x + 1, z);
      }
    }
  }

  // ----- after a fault -----

  lemma EffectStaysInactive(c: HardwareModel.Config, s: HardwareModel.Hardware, call: HardwareCall)
    requires c.Shaped() && s.Shaped() && call.Shaped() && !call.Activating? && !s.active
    ensures !Effect(c, s, call).active
  {
    if call.Cycling? {
      HardwareSafety.InactiveStep(c, s, call.i);
    }
  }

  lemma {:induction false} StaysInactive(c: HardwareModel.Config, y: System, m: nat, n: nat)
    requires Valid(c, y) && m <= n <= |y.calls| && !y.hw[m].active
    requires forall k | m <= k < n :: !y.calls[k].Activating?
    ensures !y.hw[n].active
    decreases n
  {
    if m < n {
      StaysInactive(c, y, m, n - 1);
      assert Performed(c, y, n - 1);
      EffectStaysInactive(c, y.hw[n - 1], y.calls[n - 1]);
    }
  }

  lemma NoPushAfterFault(c: HardwareModel.Config, y: System, m: nat, x: nat, z: nat)
    requires Valid(c, y) && m < |y.calls| && !y.hw[m + 1].active
    requires y.from[m] <= x < y.to[m] && PowerOffPushAt(y, x)
    requires forall k | m < k < |y.calls| :: !y.calls[k].Activating?
    requires x < z
    ensures !NormalPushAt(y, z)
  {
    if NormalPushAt(y, z) {
      var n :| 0 <= n < |y.calls| && y.from[n] <= z < y.to[n];
      CallsPushAllowed(c, y, n);
      if n > m {
        StaysInactive(c, y, m + 1, n);
      }
    }
  }

  /** When a call has deactivated the hardware, by a fault or at the end of the lifecycle, and its
      power-off has been pushed for the live session, every frame written from then on carries the
      power-off flag, until the next activation: no enabled frame, queued before or after, reaches the
      line any more, whatever callbacks, serial errors, further power-offs, `close` and `open` follow. */
  lemma NothingEnabledAfterFault(c: HardwareModel.Config, y: System, m: nat, x: nat, j: nat)
    requires Valid(c, y) && m < |y.calls| && !y.hw[m + 1].active
    requires y.from[m] <= x < y.to[m] && PowerOffPushAt(y, x)
    requires var t := y.states[x]; t.session.Some? && t.session.value.generation == t.call.generation
    requires forall k | m < k < |y.calls| :: !y.calls[k].Activating?
    requires x < j < |y.states|
    ensures var before, after := y.states[x].sent, y.states[j].sent;
      && before <= after
      && forall k | |before| <= k < |after| :: Flagged(after[k].item.frame, ArmPowerOn.POWER_OFF_CONTROL_FLAG)
  {
    forall z: nat | x < z ensures !NormalPushAt(y, z) {
      NoPushAfterFault(c, y, m, x, z);
    }
    assert NoNormalPush(y.states, y.steps, x + 1, j) by {
      forall z: nat | x + 1 <= z < j ensures !PushesNormal(y.states[z], y.steps[z]) {
        assert !NormalPushAt(y, z);
      }
    }
    GrowsRun(y.states, y.steps, x, j);
    OnlyPowerOffsAreWritten(y.states, y.steps, x, j);
  }
}
