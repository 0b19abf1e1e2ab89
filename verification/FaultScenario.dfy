/** A complete run of hardware and transport together: activation, then stale feedback and its
    power-off, then `on_error` and another one. It meets every premise of
    `EndToEnd.NothingEnabledAfterFault`. */
module FaultScenario {
  import opened Crc16
  import opened FrameCodec
  import opened CommandQueue
  import opened CommandMailbox
  import opened SerialTransport
  import opened TransportOutput
  import opened EndToEnd
  import ArmPowerOn
  import HardwareModel
  import Activation
  import RangeCounterexample

  function Bytes(flag: Byte): (f: seq<Byte>)
    ensures Flagged(f, flag)
  {
    seq(PREFIX_SIZE, _ => 0) + [flag]
  }

  const PRECHARGE: seq<Byte> := Bytes(0x25)
  const ENABLE: seq<Byte> := Bytes(0x3D)
  const OFF: seq<Byte> := Bytes(0x00)

  // ----- the transport -----

  /** The step is possible and leads there. */
  ghost predicate Leads(t: Transport, step: Step, u: Transport) {
    |t.mailbox.history| == HISTORY_SIZE && Enabled(t, step) && u == Apply(t, step)
  }

  function Blank(): seq<nat> { seq(HISTORY_SIZE, _ => 0) }

  function Closed(): Transport {
    Transport(Mailbox([], [], 1, Blank(), 0), 0, 1, None, NoCall, SerialTransport.Settled, 0, map[], [], [])
  }

  function Open(): Transport {
    Closed().(active := 1, nextGeneration := 2, session := Some(Session(1, None, Running)))
  }

  function Item(t: Transport, frame: seq<Byte>): QueuedCommand {
    QueuedCommand(frame, t.mailbox.next, 1)
  }

  function Begun(t: Transport, frame: seq<Byte>, powerOff: bool): Transport {
    t.(call := Began(frame, powerOff, 1, 0))
  }

  function WithItem(m: Mailbox, item: QueuedCommand, powerOff: bool): Mailbox {
    if powerOff then m.(powerOff := [item], next := m.next + 1, latch := 1)
    else m.(normal := [item], next := m.next + 1)
  }

  function AfterWrite(t: Transport, frame: seq<Byte>, powerOff: bool): Transport {
    t.(mailbox := WithItem(t.mailbox, Item(t, frame), powerOff),
       pushed := t.pushed[t.mailbox.next := PushRecord(frame, 1, powerOff)])
  }

  function Returning(t: Transport, frame: seq<Byte>, powerOff: bool): Transport {
    AfterWrite(t, frame, powerOff).(call := Pushed(frame, powerOff, 1, 0, t.mailbox.next))
  }

  /** One call on an open transport with an empty queue. */
  lemma WriteIsQueued(t: Transport, frame: seq<Byte>, powerOff: bool)
    requires |t.mailbox.history| == HISTORY_SIZE && t.active == 1 && t.epoch == 0 && t.call == NoCall
    requires 1 <= t.mailbox.next < 10 && (powerOff || t.mailbox.latch == 0)
    requires if powerOff then t.mailbox.powerOff == [] else t.mailbox.normal == []
    ensures Leads(t, BeginWrite(frame, powerOff), Begun(t, frame, powerOff))
    ensures Leads(Begun(t, frame, powerOff), PushWrite, Returning(t, frame, powerOff))
    ensures Leads(Returning(t, frame, powerOff), EndWrite, AfterWrite(t, frame, powerOff))
  {
    assert [] + [Item(t, frame)] == [Item(t, frame)];
    assert Push(Begun(t, frame, powerOff)) == (WithItem(t.mailbox, Item(t, frame), powerOff), t.mailbox.next);
  }

  function Sending(t: Transport, item: QueuedCommand, isPowerOff: bool): Transport {
    t.(mailbox := if isPowerOff then t.mailbox.(powerOff := []) else t.mailbox.(normal := []),
       session := Some(Session(1, Some(Taken(item, isPowerOff)), Running)), sent := t.sent + [SentRecord(item, 1)])
  }

  lemma FrameIsSent(t: Transport, item: QueuedCommand, isPowerOff: bool)
    requires |t.mailbox.history| == HISTORY_SIZE && t.session == Some(Session(1, None, Running))
    requires item.generation == 1
    requires if isPowerOff then t.mailbox.powerOff == [item]
             else t.mailbox.powerOff == [] && t.mailbox.normal == [item] && t.mailbox.latch == 0
    ensures Leads(t, StartWrite, Sending(t, item, isPowerOff))
  {
    assert FromSession([item], 1) == [item] && [item][1..] == [];
  }

  /** The first frame has been written. */
  function Written(t: Transport, item: QueuedCommand): (u: Transport)
    requires |t.mailbox.history| == HISTORY_SIZE
    ensures |u.mailbox.history| == HISTORY_SIZE
  {
    t.(mailbox := Complete(t.mailbox, item.sequence), session := Some(Session(1, None, Running)),
       completed := t.completed + [item.sequence])
  }

  lemma FrameIsWritten(t: Transport, item: QueuedCommand)
    requires |t.mailbox.history| == HISTORY_SIZE && t.session == Some(Session(1, Some(Taken(item, false)), Running))
    ensures Leads(t, WriteDone, Written(t, item))
  {
    assert CompletedBy(t) == [item.sequence];
  }

  // ----- runs, one call at a time -----

  datatype Trace = Trace(states: seq<Transport>, steps: seq<Step>) {
    ghost predicate Ok() {
      Run(states, steps) && AllPowerOffsFlagged(steps)
    }

    function Last(): Transport
      requires |states| == |steps| + 1
    {
      states[|steps|]
    }

    ghost function Pushing(): set<nat> {
      set x | 0 <= x < |steps| && steps[x].PushWrite?
    }

    ghost predicate Extends(r: Trace) {
      r.states <= states && r.steps <= steps
    }
  }

  lemma Then(r: Trace, step: Step, u: Transport) returns (v: Trace)
    requires r.Ok() && Leads(r.Last(), step, u) && |u.mailbox.history| == HISTORY_SIZE && PowerOffFlagged(step)
    ensures v.Ok() && v.Extends(r) && v == Trace(r.states + [u], r.steps + [step])
    ensures v.Pushing() == r.Pushing() + if step.PushWrite? then {|r.steps|} else {}
  {
    v := Trace(r.states + [u], r.steps + [step]);
    forall k | 0 <= k < |v.steps|
      ensures Enabled(v.states[k], v.steps[k]) && v.states[k + 1] == Apply(v.states[k], v.steps[k])
    {
      if k < |r.steps| {
        assert v.states[k] == r.states[k] && v.states[k + 1] == r.states[k + 1] && v.steps[k] == r.steps[k];
      }
    }
  }

  /** A whole call on the transport begins at step `n`. */
  ghost predicate Called(r: Trace, n: nat, frame: seq<Byte>, powerOff: bool) {
    && n + 3 <= |r.steps| < |r.states|
    && r.steps[n] == BeginWrite(frame, powerOff) && r.steps[n + 1] == PushWrite && r.steps[n + 2] == EndWrite
    && r.states[n + 1] == Begun(r.states[n], frame, powerOff)
    && r.states[n + 2] == Returning(r.states[n], frame, powerOff)
    && r.states[n].active == 1 && (powerOff || r.states[n].mailbox.latch == 0)
    && 1 <= r.states[n].mailbox.next < 10 && |r.states[n].mailbox.normal| + |r.states[n].mailbox.powerOff| <= 1
  }

  lemma Call(r: Trace, frame: seq<Byte>, powerOff: bool) returns (v: Trace)
    requires r.Ok() && (powerOff ==> Flagged(frame, OFF_FLAG))
    requires var t := r.Last();
      && t.active == 1 && t.epoch == 0 && t.call == NoCall
      && 1 <= t.mailbox.next < 10 && (powerOff || t.mailbox.latch == 0)
      && (if powerOff then t.mailbox.powerOff == [] else t.mailbox.normal == [])
      && |t.mailbox.normal| + |t.mailbox.powerOff| <= 1
    ensures v.Ok() && v.Extends(r) && |v.steps| == |r.steps| + 3
    ensures v.Last() == AfterWrite(r.Last(), frame, powerOff)
    ensures Called(v, |r.steps|, frame, powerOff) && v.Pushing() == r.Pushing() + {|r.steps| + 1}
  {
    var t := r.Last();
    WriteIsQueued(t, frame, powerOff);
    var a := Then(r, BeginWrite(frame, powerOff), Begun(t, frame, powerOff));
    var b := Then(a, PushWrite, Returning(t, frame, powerOff));
    v := Then(b, EndWrite, AfterWrite(t, frame, powerOff));
  }

  // ----- the run -----

  lemma Opened() returns (v: Trace)
    ensures v.Ok() && |v.steps| == 3 && v.Last() == Open() && v.Pushing() == {}
  {
    var start := Closed();
    var begun := start.(nextGeneration := 2, lifecycle := OpenCleared(1));
    var running := Open().(active := 0, lifecycle := OpenStarted(1));
    assert Clear(start.mailbox) == start.mailbox;
    v := Trace([start], []);
    v := Then(v, OpenBegin, begun);
    v := Then(v, OpenSession, running);
    v := Then(v, OpenPublish, Open());
  }

  /** Step 3 pushes the precharge frame; after step 7 it has been written. */
  lemma Precharged() returns (v: Trace)
    ensures v.Ok() && |v.steps| == 8 && v.Pushing() == {4} && Called(v, 3, PRECHARGE, false)
    ensures v.states[3].mailbox.next == 1 && SequenceCompleted(v.Last().mailbox, 1)
    ensures v.Last() == Open().(mailbox := v.Last().mailbox, pushed := v.Last().pushed,
                                sent := v.Last().sent, completed := v.Last().completed)
    ensures v.Last().mailbox == Mailbox([], [], 2, v.Last().mailbox.history, 0)
  {
    var r := Opened();
    v := Call(r, PRECHARGE, false);
    var t, item := v.Last(), Item(Open(), PRECHARGE);
    FrameIsSent(t, item, false);
    v := Then(v, StartWrite, Sending(t, item, false));
    FrameIsWritten(v.Last(), item);
    v := Then(v, WriteDone, Written(v.Last(), item));
  }

  lemma CalledStays(r: Trace, v: Trace, n: nat, frame: seq<Byte>, powerOff: bool)
    requires v.Extends(r) && |v.states| == |v.steps| + 1 && Called(r, n, frame, powerOff)
    ensures Called(v, n, frame, powerOff)
  {}

  /** The activation: the first enabled frame is pushed at step 9. */
  ghost predicate Prelude(r: Trace) {
    && Called(r, 3, PRECHARGE, false) && r.states[3].mailbox.next == 1
    && Called(r, 8, ENABLE, false) && r.states[8].mailbox.next == 2
    && |r.states[8].mailbox.history| == HISTORY_SIZE && SequenceCompleted(r.states[8].mailbox, 1)
  }

  lemma PreludeStays(r: Trace, v: Trace)
    requires v.Extends(r) && |v.states| == |v.steps| + 1 && Prelude(r)
    ensures Prelude(v)
  {
    CalledStays(r, v, 3, PRECHARGE, false);
    CalledStays(r, v, 8, ENABLE, false);
  }

  lemma Activated() returns (v: Trace)
    ensures v.Ok() && |v.steps| == 11 && v.Pushing() == {4, 9} && Prelude(v)
    ensures var t := v.Last();
      && t.active == 1 && t.epoch == 0 && t.call == NoCall && t.session == Some(Session(1, None, Running))
      && t.mailbox == Mailbox([QueuedCommand(ENABLE, 2, 1)], [], 3, t.mailbox.history, 0)
  {
    var r := Precharged();
    v := Call(r, ENABLE, false);
    CalledStays(r, v, 3, PRECHARGE, false);
  }

  /** A power-off is pushed at step 12 while the enabled frame is still queued. */
  ghost predicate Downfall(r: Trace) {
    && Called(r, 11, OFF, true)
    && r.states[12].session == Some(Session(1, None, Running))
    && r.states[12].mailbox.normal == [QueuedCommand(ENABLE, 2, 1)]
  }

  lemma PoweredOff() returns (v: Trace)
    ensures v.Ok() && |v.steps| == 14 && v.Pushing() == {4, 9, 12} && Prelude(v) && Downfall(v)
    ensures var t := v.Last();
      && t.active == 1 && t.epoch == 0 && t.call == NoCall && t.session == Some(Session(1, None, Running))
      && t.mailbox == Mailbox(
           [QueuedCommand(ENABLE, 2, 1)], [QueuedCommand(OFF, 3, 1)], 4, t.mailbox.history, 1)
      && t.sent == v.states[12].sent
  {
    var r := Activated();
    v := Call(r, OFF, true);
    PreludeStays(r, v);
  }

  /** From step 14 on that power-off is on the line; another one is pushed at step 16. */
  ghost predicate Story(r: Trace) {
    && r.Ok() && |r.steps| == 18 && r.Pushing() == {4, 9, 12, 16}
    && Prelude(r) && Downfall(r) && Called(r, 15, OFF, true)
    && |r.states[18].sent| == |r.states[12].sent| + 1
  }

  lemma Told() returns (v: Trace)
    ensures Story(v)
  {
    var off := PoweredOff();
    var t, item := off.Last(), QueuedCommand(OFF, 3, 1);
    FrameIsSent(t, item, true);
    var sending := Then(off, StartWrite, Sending(t, item, true));
    v := Call(sending, OFF, true);
    PreludeStays(off, v);
    CalledStays(off, v, 11, OFF, true);
  }

  // ----- the hardware -----

  function Off(): (s: HardwareModel.Hardware)
    ensures s.Shaped() && !s.active && !s.serialFault && s.log == []
  {
    var hold := RangeCounterexample.StartHold();
    HardwareModel.Hardware(
      false, false, ArmPowerOn.RESET_SEQUENCE, false, RangeCounterexample.StartRecovery(),
      hold, hold, hold.head, 0.0, 0, 0, 0, 0, [], [])
  }

  /** A frame older than the timeout. */
  ghost predicate IsStale(c: HardwareModel.Config, i: HardwareModel.Input) {
    && i.ReadIn? && i.Shaped() && i.read.feedback.Some? && i.read.powerOffQueued
    && i.read.now - i.read.feedback.value.receivedAt > c.feedbackTimeout
  }

  ghost predicate Added(before: HardwareModel.Hardware, after: HardwareModel.Hardware) {
    && after.log == before.log + [HardwareModel.PowerOffQueued]
    && after.asked == before.asked + [HardwareModel.AsyncWritePowerOff]
  }

  lemma StaleReadFails(c: HardwareModel.Config, s: HardwareModel.Hardware, i: HardwareModel.Input)
    requires c.Shaped() && s.Shaped() && s.active && !s.serialFault && IsStale(c, i)
    ensures var t := HardwareModel.Step(c, s, i); !t.active && Added(s, t)
  {}

  lemma Starts() returns (s: HardwareModel.Hardware)
    ensures s == Activation.Activate(RangeCounterexample.Example(), Off(), RangeCounterexample.Start()).0
    ensures s.active && !s.serialFault && RangeCounterexample.StartLog(s.log)
    ensures s.asked == [HardwareModel.AsyncWrite, HardwareModel.AsyncWrite]
  {
    s := Activation.Activate(RangeCounterexample.Example(), Off(), RangeCounterexample.Start()).0;
    RangeCounterexample.StartIsHolding(Off());
  }

  /** The latest frame is 200 ms old. */
  lemma StaleRead() returns (i: HardwareModel.Input)
    ensures IsStale(RangeCounterexample.Example(), i)
  {
    i := HardwareModel.ReadIn(
      HardwareModel.ReadInput(Some(RangeCounterexample.Frame(6, 0, 0.499)), 200 * ArmPowerOn.MILLISECOND, true, {}, true));
  }

  // ----- both together -----

  /** The activation pushes the precharge and the first enabled frame, the faulting `read` a power-off,
      and `on_error` another one. */
  ghost predicate Tells(y: System) {
    && Story(Trace(y.states, y.steps)) && y.from == [3, 11, 15] && y.to == [11, 14, 18]
    && |y.hw| == 4 && (forall m | 0 <= m < 4 :: y.hw[m].Shaped())
    && |y.calls| == 3 && (forall m | 0 <= m < 3 :: y.calls[m].Shaped())
    && y.calls[0].Activating? && y.calls[1].Cycling? && y.calls[2] == Halting(true)
  }

  ghost predicate HardwareTells(c: HardwareModel.Config, hw: seq<HardwareModel.Hardware>, calls: seq<HardwareCall>) {
    && c.Shaped() && |hw| == 4 && (forall m | 0 <= m < 4 :: hw[m].Shaped())
    && |calls| == 3 && (forall m | 0 <= m < 3 :: calls[m].Shaped())
    && calls[0].Activating? && calls[1].Cycling? && calls[2] == Halting(true)
    && (forall m | 0 <= m < 3 :: hw[m + 1] == Effect(c, hw[m], calls[m]))
    && !hw[0].active && hw[0].log == []
    && hw[1].active && RangeCounterexample.StartLog(hw[1].log)
    && hw[1].asked == [HardwareModel.AsyncWrite, HardwareModel.AsyncWrite]
    && !hw[2].active && Added(hw[1], hw[2]) && Added(hw[2], hw[3])
  }

  lemma ToldIsShaped(y: System)
    requires Tells(y)
    ensures y.Shaped()
  {}

  lemma PushesHere(y: System, x: nat)
    requires Tells(y) && y.Shaped()
    ensures NormalPushAt(y, x) <==> x == 4 || x == 9
    ensures PowerOffPushAt(y, x) <==> x == 12 || x == 16
  {
    assert x in Trace(y.states, y.steps).Pushing() <==> x == 4 || x == 9 || x == 12 || x == 16;
  }

  lemma OnlyTheHardwareCalls(y: System)
    requires Tells(y) && y.Shaped()
    ensures OnlyCalls(y)
  {
    forall x: nat | NormalPushAt(y, x) ensures exists m :: 0 <= m < |y.calls| && y.from[m] <= x < y.to[m] {
      PushesHere(y, x);
      assert y.from[0] <= x < y.to[0];
    }
  }

  // ----- the frames are pushed -----

  lemma PushReturns(y: System, n: nat, frame: seq<Byte>)
    requires y.Shaped() && Called(Trace(y.states, y.steps), n, frame, false)
    ensures NormalPushAt(y, n + 1) && y.states[n + 1].call.frame == frame
    ensures Push(y.states[n + 1]).1 == y.states[n].mailbox.next == Returned(y.states[n + 2])
  {}

  lemma PrechargeIsQueued(y: System, e: HardwareModel.Event)
    requires Tells(y) && y.Shaped()
    requires e.Queued? && e.flag == ArmPowerOn.ARMS_DISABLED_CONTROL_FLAG && e.sequence == 1 && e.written == {}
    ensures QueuedIn(y, 0, e)
  {
    PushReturns(y, 3, PRECHARGE);
    assert QueuedAt(y, 0, e, 4, 5);
  }

  lemma EnableIsQueued(y: System, e: HardwareModel.Event)
    requires Tells(y) && y.Shaped()
    requires e.Queued? && e.flag == ArmPowerOn.ACTIVE_CONTROL_FLAG && e.sequence == 2 && e.written == {1}
    ensures QueuedIn(y, 0, e)
  {
    PushReturns(y, 8, ENABLE);
    assert QueuedAt(y, 0, e, 9, 10);
    assert y.from[0] <= 8 <= 9 && SequenceCompleted(y.states[8].mailbox, 1);
  }

  lemma LogIsAnswered(y: System, log: seq<HardwareModel.Event>, k: nat)
    requires Tells(y) && y.Shaped() && RangeCounterexample.StartLog(log) && k < |log|
    ensures Answered(y, 0, log[k])
  {
    if k == |log| - 2 {
      PrechargeIsQueued(y, log[k]);
    } else if k == |log| - 1 {
      EnableIsQueued(y, log[k]);
    }
  }

  // ----- the pushes are asked for -----

  lemma {:induction false} WithinItself(asked: seq<HardwareModel.Asking>)
    ensures Within(asked, asked)
  {
    if asked != [] {
      WithinItself(asked[..|asked| - 1]);
    }
  }

  lemma {:induction false} NoPushes(y: System, i: nat, x: nat, j: nat)
    requires y.Shaped() && i <= x <= j < |y.states|
    requires forall z: nat | x <= z < j :: !NormalPushAt(y, z) && !PowerOffPushAt(y, z)
    ensures Pushes(y, i, j) == Pushes(y, i, x)
    decreases j
  {
    if x < j {
      NoPushes(y, i, x, j - 1);
    }
  }

  lemma ActivationPushes(y: System)
    requires Tells(y) && y.Shaped()
    ensures Pushes(y, 3, 11) == [HardwareModel.AsyncWrite, HardwareModel.AsyncWrite]
  {
    forall z: nat ensures NormalPushAt(y, z) <==> z == 4 || z == 9 {
      PushesHere(y, z);
    }
    forall z: nat ensures PowerOffPushAt(y, z) <==> z == 12 || z == 16 {
      PushesHere(y, z);
    }
    NoPushes(y, 3, 3, 4);
    NoPushes(y, 3, 5, 9);
    NoPushes(y, 3, 10, 11);
  }

  /** The only push from `i` to `j` is the power-off of step `x`. */
  lemma OnePush(y: System, i: nat, x: nat, j: nat)
    requires Tells(y) && y.Shaped() && 9 < i <= x < j <= 18 && (x == 12 || x == 16)
    requires i <= 12 < j ==> x == 12
    requires i <= 16 < j ==> x == 16
    ensures Pushes(y, i, j) == [HardwareModel.AsyncWritePowerOff]
  {
    forall z: nat ensures !(z > 9 && NormalPushAt(y, z)) && (PowerOffPushAt(y, z) <==> z == 12 || z == 16) {
      PushesHere(y, z);
    }
    NoPushes(y, i, i, x);
    NoPushes(y, i, x + 1, j);
  }

  // ----- the calls are performed -----

  lemma ActivationIsAnswered(y: System)
    requires Tells(y) && y.Shaped() && RangeCounterexample.StartLog(y.hw[1].log)
    ensures forall k | 0 <= k < |y.hw[1].log| :: Answered(y, 0, y.hw[1].log[k])
  {
    forall k | 0 <= k < |y.hw[1].log| ensures Answered(y, 0, y.hw[1].log[k]) {
      LogIsAnswered(y, y.hw[1].log, k);
    }
  }

  ghost predicate IsAsked(y: System, m: nat)
    requires y.Shaped() && m < |y.calls|
  {
    exists asked :: AskedIn(y, m, asked) && Within(Pushes(y, y.from[m], y.to[m]), asked)
  }

  lemma ActivationIsAsked(y: System)
    requires Tells(y) && y.Shaped() && y.hw[1].asked == [HardwareModel.AsyncWrite, HardwareModel.AsyncWrite]
    ensures IsAsked(y, 0)
  {
    ActivationPushes(y);
    WithinItself(y.hw[1].asked);
    assert AskedIn(y, 0, y.hw[1].asked);
  }

  lemma PowerOffIsAsked(y: System, m: nat)
    requires Tells(y) && y.Shaped() && 1 <= m < 3 && Added(y.hw[m], y.hw[m + 1])
    ensures IsAsked(y, m)
  {
    var asked := [HardwareModel.AsyncWritePowerOff];
    if m == 1 {
      OnePush(y, 11, 12, 14);
    } else {
      OnePush(y, 15, 16, 18);
    }
    WithinItself(asked);
    assert AskedIn(y, m, asked);
  }

  lemma PowerOffIsAnswered(y: System, m: nat)
    requires Tells(y) && y.Shaped() && 1 <= m < 3 && Added(y.hw[m], y.hw[m + 1])
    ensures var log := y.hw[m + 1].log; forall k | Base(y, m) <= k < |log| :: Answered(y, m, log[k])
  {}

  lemma CallIsPerformed(c: HardwareModel.Config, y: System, m: nat)
    requires c.Shaped() && y.Shaped() && m < |y.calls| && IsAsked(y, m)
    requires var log := y.hw[m + 1].log; forall k | Base(y, m) <= k < |log| :: Answered(y, m, log[k])
    requires y.calls[m].Activating? ==> !y.hw[m].active
    requires y.hw[m + 1] == Effect(c, y.hw[m], y.calls[m])
    ensures Performed(c, y, m)
  {}

  lemma CallsArePerformed(c: HardwareModel.Config, y: System, m: nat)
    requires Tells(y) && HardwareTells(c, y.hw, y.calls) && y.Shaped() && m < 3
    ensures Performed(c, y, m)
  {
    if m == 0 {
      ActivationIsAnswered(y);
      ActivationIsAsked(y);
    } else {
      PowerOffIsAnswered(y, m);
      PowerOffIsAsked(y, m);
    }
    CallIsPerformed(c, y, m);
  }

  /** The fault's power-off is pushed for the live session while an enabled frame is still queued,
      `on_error` pushes another one, and one more frame is written afterwards. */
  ghost predicate Faulting(y: System) {
    && y.Shaped() && |y.calls| == 3 && |y.steps| == 18
    && y.hw[1].active && !y.hw[2].active
    && y.from[1] <= 12 < y.to[1] && PowerOffPushAt(y, 12)
    && y.calls[2] == Halting(true) && y.from[2] <= 16 < y.to[2] && PowerOffPushAt(y, 16)
    && var t := y.states[12];
    && t.session.Some? && t.session.value.generation == t.call.generation
    && t.mailbox.normal != [] && Flagged(t.mailbox.normal[0].frame, ArmPowerOn.ACTIVE_CONTROL_FLAG)
    && |y.states[18].sent| == |t.sent| + 1
  }

  lemma ToldIsFaulting(y: System)
    requires Tells(y) && y.Shaped() && y.hw[1].active && !y.hw[2].active
    ensures Faulting(y)
  {
    PushesHere(y, 12);
    PushesHere(y, 16);
  }

  lemma ToldIsValid(c: HardwareModel.Config, y: System)
    requires Tells(y) && HardwareTells(c, y.hw, y.calls) && y.Shaped()
    ensures Valid(c, y)
  {
    OnlyTheHardwareCalls(y);
    forall m | 0 <= m < |y.calls| ensures Performed(c, y, m) {
      CallsArePerformed(c, y, m);
    }
  }

  lemma HardwareTold(
    c: HardwareModel.Config, a: Activation.ActivationInput, i: HardwareModel.Input,
    off: HardwareModel.Hardware, on: HardwareModel.Hardware)
    returns (hw: seq<HardwareModel.Hardware>, calls: seq<HardwareCall>)
    requires c.Shaped() && a.Shaped() && IsStale(c, i)
    requires off.Shaped() && !off.active && off.log == [] && on == Activation.Activate(c, off, a).0
    requires on.active && !on.serialFault && RangeCounterexample.StartLog(on.log)
    requires on.asked == [HardwareModel.AsyncWrite, HardwareModel.AsyncWrite]
    ensures HardwareTells(c, hw, calls)
  {
    var failed := HardwareModel.Step(c, on, i);
    StaleReadFails(c, on, i);
    hw := [off, on, failed, HardwareModel.Halt(failed, true)];
    calls := [Activating(a), Cycling(i), Halting(true)];
  }

  lemma HardwareRuns() returns (hw: seq<HardwareModel.Hardware>, calls: seq<HardwareCall>)
    ensures HardwareTells(RangeCounterexample.Example(), hw, calls)
  {
    var i := StaleRead();
    var on := Starts();
    hw, calls := HardwareTold(RangeCounterexample.Example(), RangeCounterexample.Start(), i, Off(), on);
  }

  /** No premise about faults is vacuous. */
  lemma FaultHappens() returns (c: HardwareModel.Config, y: System)
    ensures Valid(c, y) && Faulting(y)
  {
    c := RangeCounterexample.Example();
    var r := Told();
    var hw, calls := HardwareRuns();
    y := System(r.states, r.steps, hw, calls, [3, 11, 15], [11, 14, 18]);
    ToldIsShaped(y);
    ToldIsValid(c, y);
    ToldIsFaulting(y);
  }
}
