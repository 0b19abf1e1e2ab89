/** What the transport writes to the line: after a power-off nothing but power-offs, and everything
    it reports completed. */
module TransportOutput {
  import opened Crc16
  import opened FrameCodec
  import opened CommandQueue
  import opened CommandMailbox
  import opened SerialTransport

  const OFF_FLAG: Byte := 0x00

  /** The control flag is the first byte of the payload. */
  ghost predicate Flagged(frame: seq<Byte>, flag: Byte) {
    |frame| > PREFIX_SIZE && frame[PREFIX_SIZE] == flag
  }

  // ----- power-off frames carry the power-off flag -----

  /** `queue_power_off` encodes its frame without software power. */
  ghost predicate PowerOffFlagged(step: Step) {
    step.BeginWrite? && step.powerOff ==> Flagged(step.frame, OFF_FLAG)
  }

  ghost predicate FlagsInv(t: Transport) {
    && (forall k | k in t.pushed && t.pushed[k].powerOff :: Flagged(t.pushed[k].frame, OFF_FLAG))
    && (!t.call.NoCall? && t.call.powerOff ==> Flagged(t.call.frame, OFF_FLAG))
    && (t.session.Some? && t.session.value.phase.Draining? && t.session.value.phase.last.Some? ==>
          Flagged(t.session.value.phase.last.value.frame, OFF_FLAG))
  }

  /** A power-off taken out of the mailbox carries the flag. */
  lemma TakenFlag(t: Transport, step: Step)
    requires QueuesInv(t) && Enabled(t, step) && FlagsInv(t)
    requires TakenBy(t, step).Some? && TakenBy(t, step).value.isPowerOff
    ensures Flagged(TakenBy(t, step).value.item.frame, OFF_FLAG)
  {
    var p, n := PopNextShape(t.mailbox, t.session.value.generation);
    assert LoggedItem(t.mailbox.powerOff[p - 1], true, t.pushed);
  }

  lemma FlagsStep(t: Transport, step: Step)
    requires CompletionInv(t) && Enabled(t, step) && FlagsInv(t) && PowerOffFlagged(step)
    ensures FlagsInv(Apply(t, step))
  {
    if TakenBy(t, step).Some? && TakenBy(t, step).value.isPowerOff {
      TakenFlag(t, step);
    }
  }

  // ----- after the latch, nothing but power-offs is written -----

  ghost predicate PushesNormal(t: Transport, step: Step)
    requires Enabled(t, step)
  {
    step.PushWrite? && !t.call.powerOff
  }

  /** No normal frame can be taken: it is held back, or there is none. */
  ghost predicate Silent(t: Transport, g: nat) {
    Holding(t, g) || t.mailbox.normal == []
  }

  lemma SilentStep(t: Transport, step: Step, g: nat)
    requires GenerationInv(t) && |t.mailbox.history| == HISTORY_SIZE && Enabled(t, step)
    requires Silent(t, g) && !PushesNormal(t, step)
    ensures Silent(Apply(t, step), g)
    ensures TakenBy(t, step).Some? ==> TakenBy(t, step).value.isPowerOff
  {
    if step.StartWrite? || step.DrainOne? || step.DrainDone? {
      var p, n := PopNextShape(t.mailbox, t.session.value.generation);
    }
    if Holding(t, g) && !Releases(t, step, g) {
      HoldingStep(t, step, g);
    }
  }

  /** The frames written after the first `n`. */
  ghost predicate WrittenFlagged(sent: seq<SentRecord>, n: nat) {
    forall k | n <= k < |sent| :: Flagged(sent[k].item.frame, OFF_FLAG)
  }

  lemma SentStep(t: Transport, step: Step, g: nat, n: nat)
    requires GenerationInv(t) && CompletionInv(t) && Enabled(t, step) && FlagsInv(t)
    requires Silent(t, g) && !PushesNormal(t, step) && n <= |t.sent| && WrittenFlagged(t.sent, n)
    ensures n <= |Apply(t, step).sent| && WrittenFlagged(Apply(t, step).sent, n)
  {
    SilentStep(t, step, g);
    if TakenBy(t, step).Some? {
      TakenFlag(t, step);
    }
  }

  ghost predicate AllPowerOffsFlagged(steps: seq<Step>) {
    forall k | 0 <= k < |steps| :: PowerOffFlagged(steps[k])
  }

  lemma {:induction false} FlagsRun(states: seq<Transport>, steps: seq<Step>, i: nat)
    requires Run(states, steps) && AllPowerOffsFlagged(steps) && i < |states|
    ensures FlagsInv(states[i])
  {
    if i > 0 {
      FlagsRun(states, steps, i - 1);
      RunKeepsInv(states, steps, i - 1);
      assert states[i - 1 + 1] == Apply(states[i - 1], steps[i - 1]);
      FlagsStep(states[i - 1], steps[i - 1]);
    }
  }

  /** Silent, and since the first `n` only power-offs have been written. */
  ghost predicate Quieted(t: Transport, g: nat, n: nat) {
    Silent(t, g) && n <= |t.sent| && WrittenFlagged(t.sent, n)
  }

  lemma QuietedStep(t: Transport, step: Step, u: Transport, g: nat, n: nat)
    requires GenerationInv(t) && CompletionInv(t) && Enabled(t, step) && FlagsInv(t) && u == Apply(t, step)
    requires Quieted(t, g, n) && !PushesNormal(t, step)
    ensures Quieted(u, g, n)
  {
    SilentStep(t, step, g);
    SentStep(t, step, g, n);
  }

  ghost predicate NoNormalPush(states: seq<Transport>, steps: seq<Step>, i: nat, j: nat)
    requires |states| == |steps| + 1 && j < |states|
    requires forall k | 0 <= k < |steps| :: Enabled(states[k], steps[k])
  {
    forall k | i <= k < j :: !PushesNormal(states[k], steps[k])
  }

  /** What is known of one step of a run. */
  lemma RunStep(states: seq<Transport>, steps: seq<Step>, k: nat)
    requires Run(states, steps) && k < |steps|
    ensures GenerationInv(states[k]) && CompletionInv(states[k]) && Enabled(states[k], steps[k])
    ensures states[k + 1] == Apply(states[k], steps[k])
  {
    RunKeepsInv(states, steps, k);
  }

  lemma QuietedNext(states: seq<Transport>, steps: seq<Step>, k: nat, g: nat, n: nat)
    requires Run(states, steps) && AllPowerOffsFlagged(steps) && k < |steps| && Quieted(states[k], g, n)
    requires !PushesNormal(states[k], steps[k])
    ensures Quieted(states[k + 1], g, n)
  {
    RunStep(states, steps, k);
    FlagsRun(states, steps, k);
    QuietedStep(states[k], steps[k], states[k + 1], g, n);
  }

  lemma {:induction false} SilentRun(states: seq<Transport>, steps: seq<Step>, i: nat, j: nat, g: nat, n: nat)
    requires Run(states, steps) && AllPowerOffsFlagged(steps) && i <= j < |states| && Quieted(states[i], g, n)
    requires NoNormalPush(states, steps, i, j)
    ensures Quieted(states[j], g, n)
    decreases j
  {
    if i < j {
      SilentRun(states, steps, i, j - 1, g, n);
      QuietedNext(states, steps, j - 1, g, n);
    }
  }

  /** From a power-off push for the live session on, as long as no normal frame is pushed, every frame
      written carries the power-off flag: before and after completions, across `close` and `open`. */
  lemma OnlyPowerOffsAreWritten(states: seq<Transport>, steps: seq<Step>, i: nat, j: nat)
    requires Run(states, steps) && AllPowerOffsFlagged(steps) && i < j < |states|
    requires steps[i] == PushWrite && states[i].call.powerOff
    requires states[i].session.Some? && states[i].session.value.generation == states[i].call.generation
    requires NoNormalPush(states, steps, i + 1, j)
    ensures |states[i].sent| <= |states[j].sent| && WrittenFlagged(states[j].sent, |states[i].sent|)
  {
    var g := states[i].call.generation;
    RunKeepsInv(states, steps, i);
    assert states[i + 1] == Apply(states[i], steps[i]);
    assert Holding(states[i + 1], g);
    SilentRun(states, steps, i + 1, j, g, |states[i].sent|);
  }

  // ----- what completed was written -----

  ghost predicate WasSent(sent: seq<SentRecord>, sequence: nat) {
    exists k | 0 <= k < |sent| :: sent[k].item.sequence == sequence
  }

  /** Record `r` is a power-off of this frame's session, pushed before it. */
  ghost predicate StandsFor(t: Transport, r: SentRecord, sequence: nat)
    requires sequence in t.pushed
  {
    && r.item.sequence < sequence && r.session == t.pushed[sequence].generation
    && r.item.sequence in t.pushed && t.pushed[r.item.sequence].powerOff
  }

  ghost predicate StoodFor(t: Transport, sequence: nat)
    requires sequence in t.pushed
  {
    exists n | 0 <= n < |t.sent| :: StandsFor(t, t.sent[n], sequence)
  }

  /** A completed frame was written, or is a power-off that an earlier one, written for the same
      session, stands for. */
  ghost predicate Delivered(t: Transport, sequence: nat) {
    sequence in t.pushed && (WasSent(t.sent, sequence) || (t.pushed[sequence].powerOff && StoodFor(t, sequence)))
  }

  ghost predicate AllDelivered(t: Transport, sequences: seq<nat>) {
    forall k | 0 <= k < |sequences| :: Delivered(t, sequences[k])
  }

  lemma DeliveredJoin(t: Transport, a: seq<nat>, b: seq<nat>)
    requires AllDelivered(t, a) && AllDelivered(t, b)
    ensures AllDelivered(t, a + b)
  {}

  /** The frame in flight is among those sent. */
  ghost predicate FlightSent(t: Transport) {
    t.session.Some? && t.session.value.tx.Some? ==>
      exists n | 0 <= n < |t.sent| :: t.sent[n] == SentRecord(t.session.value.tx.value.item, t.session.value.generation)
  }

  ghost predicate DeliveryInv(t: Transport) {
    AllDelivered(t, t.completed) && FlightSent(t)
  }

  ghost predicate Grows(t: Transport, u: Transport) {
    && t.sent <= u.sent && t.completed <= u.completed
    && forall k | k in t.pushed :: k in u.pushed && u.pushed[k] == t.pushed[k]
  }

  lemma GrowsStep(t: Transport, step: Step)
    requires CompletionInv(t) && Enabled(t, step)
    ensures Grows(t, Apply(t, step))
  {
    if step.PushWrite? {
      PushShape(t);
    }
  }

  lemma DeliveredGrows(t: Transport, u: Transport, sequence: nat)
    requires Grows(t, u) && Delivered(t, sequence)
    ensures Delivered(u, sequence)
  {
    if WasSent(t.sent, sequence) {
      var k :| 0 <= k < |t.sent| && t.sent[k].item.sequence == sequence;
      assert u.sent[k] == t.sent[k];
    } else {
      var n :| 0 <= n < |t.sent| && StandsFor(t, t.sent[n], sequence);
      assert u.sent[n] == t.sent[n] && StandsFor(u, u.sent[n], sequence);
    }
  }

  /** The power-offs of the session still queued are stood for by record `n`. */
  lemma {:induction false} CoalescedAreDelivered(t: Transport, queue: seq<QueuedCommand>, n: nat)
    requires n < |t.sent| && Logged(queue, true, t.pushed) && Above(queue, t.sent[n].item.sequence)
    requires t.sent[n].item.sequence in t.pushed && t.pushed[t.sent[n].item.sequence].powerOff
    ensures AllDelivered(t, SequencesOf(queue, t.sent[n].session))
    decreases |queue|
  {
    if queue != [] {
      var last := queue[|queue| - 1];
      assert LoggedItem(last, true, t.pushed);
      CoalescedAreDelivered(t, queue[..|queue| - 1], n);
      if last.generation == t.sent[n].session {
        assert StandsFor(t, t.sent[n], last.sequence);
        DeliveredJoin(t, SequencesOf(queue[..|queue| - 1], t.sent[n].session), [last.sequence]);
      }
    }
  }

  lemma FlightStep(t: Transport, step: Step)
    requires CompletionInv(t) && Enabled(t, step) && FlightSent(t)
    ensures FlightSent(Apply(t, step))
  {
    var u := Apply(t, step);
    GrowsStep(t, step);
    if step.StartWrite? && Offer(t).1.Some? {
      assert u.sent[|t.sent|] == SentRecord(u.session.value.tx.value.item, u.session.value.generation);
    } else if t.session.Some? && t.session.value.tx.Some? {
      var n :| 0 <= n < |t.sent| && t.sent[n] == SentRecord(t.session.value.tx.value.item, t.session.value.generation);
      assert u.sent[n] == t.sent[n];
    }
  }

  /** What a finished write completes has been delivered. */
  lemma DoneIsDelivered(t: Transport)
    requires CompletionInv(t) && Enabled(t, WriteDone) && FlightSent(t)
    ensures AllDelivered(Apply(t, WriteDone), CompletedBy(t))
  {
    var tx, u := t.session.value.tx.value, Apply(t, WriteDone);
    var n :| 0 <= n < |t.sent| && t.sent[n] == SentRecord(tx.item, t.session.value.generation);
    assert u.sent[n].item.sequence == tx.item.sequence;
    assert LoggedItem(tx.item, tx.isPowerOff, u.pushed);
    assert AllDelivered(u, [tx.item.sequence]);
    if tx.isPowerOff {
      CoalescedAreDelivered(u, t.mailbox.powerOff, n);
      DeliveredJoin(u, [tx.item.sequence], SequencesOf(t.mailbox.powerOff, t.session.value.generation));
    }
  }

  lemma DeliveryStep(t: Transport, step: Step)
    requires CompletionInv(t) && Enabled(t, step) && DeliveryInv(t)
    ensures DeliveryInv(Apply(t, step))
  {
    var u := Apply(t, step);
    GrowsStep(t, step);
    FlightStep(t, step);
    forall k | 0 <= k < |t.completed| ensures Delivered(u, t.completed[k]) {
      DeliveredGrows(t, u, t.completed[k]);
    }
    if step.WriteDone? {
      DoneIsDelivered(t);
      DeliveredJoin(u, t.completed, CompletedBy(t));
    }
  }

  lemma {:induction false} DeliveryRun(states: seq<Transport>, steps: seq<Step>, i: nat)
    requires Run(states, steps) && i < |states|
    ensures DeliveryInv(states[i])
  {
    if i > 0 {
      DeliveryRun(states, steps, i - 1);
      RunKeepsInv(states, steps, i - 1);
      assert states[i - 1 + 1] == Apply(states[i - 1], steps[i - 1]);
      DeliveryStep(states[i - 1], steps[i - 1]);
    }
  }

  lemma GrowsTransitive(a: Transport, b: Transport, c: Transport)
    requires Grows(a, b) && Grows(b, c)
    ensures Grows(a, c)
  {}

  lemma {:induction false} GrowsRun(states: seq<Transport>, steps: seq<Step>, i: nat, j: nat)
    requires Run(states, steps) && i <= j < |states|
    ensures Grows(states[i], states[j])
    decreases j
  {
    if i < j {
      GrowsRun(states, steps, i, j - 1);
      RunStep(states, steps, j - 1);
      GrowsStep(states[j - 1], steps[j - 1]);
      GrowsTransitive(states[i], states[j - 1], states[j]);
    }
  }
}
