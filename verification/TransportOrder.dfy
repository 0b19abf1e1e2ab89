/** In which order the transport takes what was pushed: of each kind the oldest of the session first,
    none skipped and none twice. */
module TransportOrder {
  import opened CommandQueue
  import opened CommandMailbox
  import opened SerialTransport
  import opened TransportOutput

  // ----- one pop -----

  ghost predicate HasOwn(queue: seq<QueuedCommand>, generation: nat) {
    exists k | 0 <= k < |queue| :: queue[k].generation == generation
  }

  /** Entry `k` is the session's oldest; what follows it stays. */
  ghost predicate TakesAt(
    before: seq<QueuedCommand>, after: seq<QueuedCommand>, generation: nat, item: QueuedCommand, k: nat)
  {
    && k < |before| && before[k] == item && item.generation == generation && after == before[k + 1..]
    && forall i | 0 <= i < k :: before[i].generation != generation
  }

  ghost predicate TakesOldest(
    before: seq<QueuedCommand>, after: seq<QueuedCommand>, generation: nat, item: QueuedCommand)
  {
    exists k: nat :: TakesAt(before, after, generation, item, k)
  }

  lemma FromSessionTakes(queue: seq<QueuedCommand>, generation: nat)
    ensures var rest := FromSession(queue, generation);
      && (rest == [] <==> !HasOwn(queue, generation))
      && (rest != [] ==> TakesOldest(queue, rest[1..], generation, rest[0]))
  {
    var k := FromSessionIsSuffix(queue, generation);
    if k < |queue| {
      assert queue[k..][1..] == queue[k + 1..];
      assert TakesAt(queue, FromSession(queue, generation)[1..], generation, queue[k], k);
    }
  }

  /** A power-off of the session goes first. Without one, a normal command of the session, unless the
      latch holds it back; then nothing is taken. What is taken is the oldest of its kind. */
  lemma PopTakesOldest(m: Mailbox, generation: nat)
    ensures var (after, taken) := PopNext(m, generation);
      && after == m.(normal := after.normal, powerOff := after.powerOff)
      && match taken
         case None =>
           && !HasOwn(m.powerOff, generation) && after.powerOff == []
           && if m.latch == generation then after.normal == m.normal
              else !HasOwn(m.normal, generation) && after.normal == []
         case Some(t) =>
           if HasOwn(m.powerOff, generation) then
             t.isPowerOff && TakesOldest(m.powerOff, after.powerOff, generation, t.item) && after.normal == m.normal
           else
             && !t.isPowerOff && m.latch != generation && after.powerOff == []
             && TakesOldest(m.normal, after.normal, generation, t.item)
  {
    FromSessionTakes(m.powerOff, generation);
    FromSessionTakes(m.normal, generation);
  }

  // ----- generations only grow -----

  ghost predicate NewestInv(t: Transport) {
    && (t.session.Some? ==> t.session.value.generation == t.nextGeneration - 1)
    && (t.lifecycle.OpenCleared? || t.lifecycle.OpenStarted? ==> t.lifecycle.generation == t.nextGeneration - 1)
    && forall s | s in t.pushed :: t.pushed[s].generation < t.nextGeneration
  }

  lemma NewestStep(t: Transport, step: Step)
    requires GenerationInv(t) && |t.mailbox.history| == HISTORY_SIZE && Enabled(t, step) && NewestInv(t)
    ensures NewestInv(Apply(t, step)) && t.nextGeneration <= Apply(t, step).nextGeneration
  {}

  lemma {:induction false} NewestRun(states: seq<Transport>, steps: seq<Step>, i: nat)
    requires Run(states, steps) && i < |states|
    ensures NewestInv(states[i])
  {
    if i > 0 {
      NewestRun(states, steps, i - 1);
      RunKeepsInv(states, steps, i - 1);
      assert states[i - 1 + 1] == Apply(states[i - 1], steps[i - 1]);
      NewestStep(states[i - 1], steps[i - 1]);
    }
  }

  lemma GenerationNext(states: seq<Transport>, steps: seq<Step>, k: nat)
    requires Run(states, steps) && k < |steps|
    ensures states[k].nextGeneration <= states[k + 1].nextGeneration
  {
    RunStep(states, steps, k);
    NewestRun(states, steps, k);
    NewestStep(states[k], steps[k]);
  }

  lemma {:induction false} GenerationsGrow(states: seq<Transport>, steps: seq<Step>, i: nat, j: nat)
    requires Run(states, steps) && i <= j < |states|
    ensures states[i].nextGeneration <= states[j].nextGeneration
    decreases j
  {
    if i < j {
      GenerationsGrow(states, steps, i, j - 1);
      GenerationNext(states, steps, j - 1);
    }
  }

  // ----- what can become of a pushed frame -----

  function Queue(t: Transport, powerOff: bool): seq<QueuedCommand> {
    if powerOff then t.mailbox.powerOff else t.mailbox.normal
  }

  ghost predicate InQueue(t: Transport, sequence: nat, powerOff: bool) {
    exists k | 0 <= k < |Queue(t, powerOff)| :: Queue(t, powerOff)[k].sequence == sequence
  }

  /** The step takes the frame out of the mailbox. */
  ghost predicate Takes(t: Transport, step: Step, sequence: nat, powerOff: bool)
    requires Enabled(t, step)
  {
    var taken := TakenBy(t, step);
    taken.Some? && taken.value.item.sequence == sequence && taken.value.isPowerOff == powerOff
  }

  /** A completed power-off empties both queues, and so do opening and closing. */
  ghost predicate Empties(t: Transport, step: Step)
    requires Enabled(t, step)
  {
    step.OpenBegin? || step.CloseClear? || (step.WriteDone? && t.session.value.tx.value.isPowerOff)
  }

  /** A later session is there. */
  ghost predicate Outlived(t: Transport, sequence: nat) {
    sequence in t.pushed && t.session.Some? && t.session.value.generation > t.pushed[sequence].generation
  }

  /** A frame that a pop drops is the one taken, or of another session. */
  lemma DroppedByPop(before: seq<QueuedCommand>, after: seq<QueuedCommand>, generation: nat, item: QueuedCommand, k: nat)
    requires TakesOldest(before, after, generation, item) && k < |before|
    ensures (exists x :: 0 <= x < |after| && after[x] == before[k]) || before[k] == item || before[k].generation != generation
  {
    var x: nat :| TakesAt(before, after, generation, item, x);
    if k > x {
      assert after[k - x - 1] == before[k];
    }
  }

  /** The same for both queues, whatever the pop hands out. */
  lemma DroppedByNext(m: Mailbox, generation: nat, powerOff: bool, k: nat)
    requires var queue := if powerOff then m.powerOff else m.normal; k < |queue|
    ensures var queue := if powerOff then m.powerOff else m.normal;
      var (after, taken) := PopNext(m, generation);
      var rest := if powerOff then after.powerOff else after.normal;
      || (exists x :: 0 <= x < |rest| && rest[x] == queue[k])
      || queue[k].generation != generation
      || (taken.Some? && taken.value.isPowerOff == powerOff && taken.value.item == queue[k])
  {
    var queue := if powerOff then m.powerOff else m.normal;
    var (after, taken) := PopNext(m, generation);
    var rest := if powerOff then after.powerOff else after.normal;
    PopTakesOldest(m, generation);
    if taken.Some? && taken.value.isPowerOff == powerOff {
      DroppedByPop(queue, rest, generation, taken.value.item, k);
    } else if rest != [] {
      assert rest[k] == queue[k];
    }
  }

  lemma PopFate(t: Transport, step: Step, sequence: nat, powerOff: bool)
    requires CompletionInv(t) && NewestInv(t) && Enabled(t, step) && InQueue(t, sequence, powerOff)
    requires step.StartWrite? || step.DrainOne? || step.DrainDone?
    ensures InQueue(Apply(t, step), sequence, powerOff) || Takes(t, step, sequence, powerOff) || Outlived(t, sequence)
  {
    var queue := Queue(t, powerOff);
    var k :| 0 <= k < |queue| && queue[k].sequence == sequence;
    assert LoggedItem(queue[k], powerOff, t.pushed);
    DroppedByNext(t.mailbox, t.session.value.generation, powerOff, k);
    var rest := Queue(Apply(t, step), powerOff);
    if exists x :: 0 <= x < |rest| && rest[x] == queue[k] {
      var x :| 0 <= x < |rest| && rest[x] == queue[k];
      assert rest[x].sequence == sequence;
    }
  }

  lemma PushFate(t: Transport, sequence: nat, powerOff: bool)
    requires CompletionInv(t) && Enabled(t, PushWrite) && InQueue(t, sequence, powerOff)
    ensures InQueue(Apply(t, PushWrite), sequence, powerOff)
  {
    PushShape(t);
    var k :| 0 <= k < |Queue(t, powerOff)| && Queue(t, powerOff)[k].sequence == sequence;
    assert Queue(Apply(t, PushWrite), powerOff)[k] == Queue(t, powerOff)[k];
  }

  lemma StepFate(t: Transport, step: Step, sequence: nat, powerOff: bool)
    requires CompletionInv(t) && NewestInv(t) && Enabled(t, step) && InQueue(t, sequence, powerOff)
    ensures
      || InQueue(Apply(t, step), sequence, powerOff) || Takes(t, step, sequence, powerOff)
      || Empties(t, step) || Outlived(t, sequence)
  {
    if step.StartWrite? || step.DrainOne? || step.DrainDone? {
      PopFate(t, step, sequence, powerOff);
    } else if step.PushWrite? {
      PushFate(t, sequence, powerOff);
    } else if !Empties(t, step) {
      assert Queue(Apply(t, step), powerOff) == Queue(t, powerOff);
    }
  }

  /** A frame that a push has logged is in its queue right after. */
  lemma PushedIsQueued(t: Transport, sequence: nat)
    requires CompletionInv(t) && Enabled(t, PushWrite) && sequence !in t.pushed
    requires sequence in Apply(t, PushWrite).pushed
    ensures InQueue(Apply(t, PushWrite), sequence, Apply(t, PushWrite).pushed[sequence].powerOff)
  {
    var u := Apply(t, PushWrite);
    var queue := Queue(u, t.call.powerOff);
    assert queue[|queue| - 1].sequence == sequence;
  }

  /** How the frame left its queue at step `i`. */
  ghost predicate LeftAt(states: seq<Transport>, steps: seq<Step>, i: nat, sequence: nat, powerOff: bool)
    requires Run(states, steps)
  {
    && i < |steps|
    && (Takes(states[i], steps[i], sequence, powerOff)
        || (Empties(states[i], steps[i]) && InQueue(states[i], sequence, powerOff)))
  }

  ghost predicate Fate(states: seq<Transport>, steps: seq<Step>, j: nat, sequence: nat, powerOff: bool)
    requires Run(states, steps) && j < |states|
  {
    || InQueue(states[j], sequence, powerOff)
    || (exists i: nat | i < j :: LeftAt(states, steps, i, sequence, powerOff))
    || (exists i: nat | i < j :: Outlived(states[i], sequence))
  }

  lemma FateNext(states: seq<Transport>, steps: seq<Step>, j: nat, sequence: nat, powerOff: bool)
    requires Run(states, steps) && j < |steps| && Fate(states, steps, j, sequence, powerOff)
    ensures Fate(states, steps, j + 1, sequence, powerOff)
  {
    var t, step := states[j], steps[j];
    assert states[j + 1] == Apply(t, step);
    if exists i: nat | i < j :: LeftAt(states, steps, i, sequence, powerOff) {
      var i: nat :| i < j && LeftAt(states, steps, i, sequence, powerOff);
      assert i < j + 1;
    } else if exists i: nat | i < j :: Outlived(states[i], sequence) {
      var i: nat :| i < j && Outlived(states[i], sequence);
      assert i < j + 1;
    } else {
      RunKeepsInv(states, steps, j);
      NewestRun(states, steps, j);
      StepFate(t, step, sequence, powerOff);
      if Takes(t, step, sequence, powerOff) || Empties(t, step) {
        assert LeftAt(states, steps, j, sequence, powerOff);
      } else if !InQueue(states[j + 1], sequence, powerOff) {
        assert Outlived(states[j], sequence);
      }
    }
  }

  lemma {:induction false} EveryFrameHasItsFate(states: seq<Transport>, steps: seq<Step>, j: nat, sequence: nat)
    requires Run(states, steps) && j < |states| && sequence in states[j].pushed
    ensures Fate(states, steps, j, sequence, states[j].pushed[sequence].powerOff)
    decreases j
  {
    if j > 0 {
      var t, step := states[j - 1], steps[j - 1];
      assert states[j - 1 + 1] == Apply(t, step);
      RunKeepsInv(states, steps, j - 1);
      if sequence in t.pushed {
        GrowsStep(t, step);
        EveryFrameHasItsFate(states, steps, j - 1, sequence);
        FateNext(states, steps, j - 1, sequence, t.pushed[sequence].powerOff);
      } else {
        PushedIsQueued(t, sequence);
      }
    }
  }

  // ----- main results -----

  /** No frame is overtaken by a later one of its kind and session: when that one is taken, the
      earlier one has been taken before, or was still queued when the queues were emptied. */
  lemma NoneIsSkipped(states: seq<Transport>, steps: seq<Step>, j: nat, sequence: nat) returns (i: nat)
    requires Run(states, steps) && j < |steps| && TakenBy(states[j], steps[j]).Some?
    requires var taken := TakenBy(states[j], steps[j]).value;
      && sequence in states[j].pushed && sequence < taken.item.sequence
      && states[j].pushed[sequence].powerOff == taken.isPowerOff
      && states[j].pushed[sequence].generation == taken.item.generation
    ensures i < j && LeftAt(states, steps, i, sequence, states[j].pushed[sequence].powerOff)
  {
    var t, taken := states[j], TakenBy(states[j], steps[j]).value;
    EveryFrameHasItsFate(states, steps, j, sequence);
    RunKeepsInv(states, steps, j);
    NewestRun(states, steps, j);
    NotStillQueued(t, steps[j], sequence);
    forall k: nat | k < j ensures !Outlived(states[k], sequence) {
      if Outlived(states[k], sequence) {
        TooLate(states, steps, k, j, sequence);
      }
    }
    i :| i < j && LeftAt(states, steps, i, sequence, taken.isPowerOff);
  }

  lemma NotStillQueued(t: Transport, step: Step, sequence: nat)
    requires CompletionInv(t) && Enabled(t, step) && TakenBy(t, step).Some?
    requires var taken := TakenBy(t, step).value;
      && sequence in t.pushed && sequence < taken.item.sequence && t.pushed[sequence].generation == taken.item.generation
    ensures !InQueue(t, sequence, TakenBy(t, step).value.isPowerOff)
  {
    var g, taken := t.session.value.generation, TakenBy(t, step).value;
    var queue := Queue(t, taken.isPowerOff);
    PopTakesOldest(t.mailbox, g);
    var x: nat :| TakesAt(queue, Queue(Apply(t, step), taken.isPowerOff), g, taken.item, x);
    assert Ordered(queue);
    forall k | 0 <= k < |queue| ensures queue[k].sequence != sequence {
      assert LoggedItem(queue[k], taken.isPowerOff, t.pushed);
      assert k > x ==> queue[x].sequence < queue[k].sequence;
    }
  }

  /** Once a later session is there, nothing of an earlier one is taken. */
  lemma TooLate(states: seq<Transport>, steps: seq<Step>, k: nat, j: nat, sequence: nat)
    requires Run(states, steps) && k < j < |steps| && Outlived(states[k], sequence)
    requires TakenBy(states[j], steps[j]).Some? && sequence in states[j].pushed
    ensures states[j].pushed[sequence].generation != TakenBy(states[j], steps[j]).value.item.generation
  {
    NewestRun(states, steps, k);
    NewestRun(states, steps, j);
    GenerationsGrow(states, steps, k, j);
    GrowsRun(states, steps, k, j);
    PopTakesOldest(states[j].mailbox, states[j].session.value.generation);
  }

  // ----- and none is taken twice -----

  ghost predicate AllAbove(t: Transport, powerOff: bool, low: nat) {
    Above(Queue(t, powerOff), low) && low < t.mailbox.next
  }

  lemma AboveStep(t: Transport, step: Step, powerOff: bool, low: nat)
    requires CompletionInv(t) && Enabled(t, step) && AllAbove(t, powerOff, low)
    ensures AllAbove(Apply(t, step), powerOff, low)
    ensures TakenBy(t, step).Some? && TakenBy(t, step).value.isPowerOff == powerOff ==>
      low < TakenBy(t, step).value.item.sequence
  {
    NextStep(t, step);
    if step.StartWrite? || step.DrainOne? || step.DrainDone? {
      var p, n := PopNextShape(t.mailbox, t.session.value.generation);
    } else if step.PushWrite? {
      PushShape(t);
    }
  }

  lemma TakingLeavesAbove(t: Transport, step: Step)
    requires CompletionInv(t) && Enabled(t, step) && TakenBy(t, step).Some?
    ensures var taken := TakenBy(t, step).value; AllAbove(Apply(t, step), taken.isPowerOff, taken.item.sequence)
  {
    var p, n := PopNextShape(t.mailbox, t.session.value.generation);
  }

  lemma AboveNext(states: seq<Transport>, steps: seq<Step>, k: nat, powerOff: bool, low: nat)
    requires Run(states, steps) && k < |steps| && AllAbove(states[k], powerOff, low)
    ensures AllAbove(states[k + 1], powerOff, low)
  {
    RunStep(states, steps, k);
    AboveStep(states[k], steps[k], powerOff, low);
  }

  lemma {:induction false} AboveRun(states: seq<Transport>, steps: seq<Step>, i: nat, j: nat, powerOff: bool, low: nat)
    requires Run(states, steps) && i <= j < |states| && AllAbove(states[i], powerOff, low)
    ensures AllAbove(states[j], powerOff, low)
    decreases j
  {
    if i < j {
      AboveRun(states, steps, i, j - 1, powerOff, low);
      AboveNext(states, steps, j - 1, powerOff, low);
    }
  }

  /** Frames of one kind are taken in the order in which they were pushed, each at most once. */
  lemma TakenInOrder(states: seq<Transport>, steps: seq<Step>, i: nat, j: nat)
    requires Run(states, steps) && i < j < |steps|
    requires TakenBy(states[i], steps[i]).Some? && TakenBy(states[j], steps[j]).Some?
    requires TakenBy(states[i], steps[i]).value.isPowerOff == TakenBy(states[j], steps[j]).value.isPowerOff
    ensures TakenBy(states[i], steps[i]).value.item.sequence < TakenBy(states[j], steps[j]).value.item.sequence
  {
    var taken := TakenBy(states[i], steps[i]).value;
    RunKeepsInv(states, steps, i);
    RunKeepsInv(states, steps, j);
    assert states[i + 1] == Apply(states[i], steps[i]);
    TakingLeavesAbove(states[i], steps[i]);
    AboveRun(states, steps, i + 1, j, taken.isPowerOff, taken.item.sequence);
    AboveStep(states[j], steps[j], taken.isPowerOff, taken.item.sequence);
  }

  /** While generations are left, a transport at rest can be opened, under one that no push has used. */
  lemma OpenGetsFreshGeneration(t: Transport)
    requires GenerationInv(t) && NewestInv(t) && |t.mailbox.history| == HISTORY_SIZE
    requires t.lifecycle == SerialTransport.Settled && t.active == 0
    ensures Enabled(t, OpenBegin) <==> t.nextGeneration < 0xFFFF_FFFF_FFFF_FFFF
    ensures Enabled(t, OpenBegin) ==>
      var u := Apply(t, OpenBegin);
      && u.lifecycle == OpenCleared(t.nextGeneration) && u.mailbox.normal == [] == u.mailbox.powerOff
      && forall s | s in t.pushed :: t.pushed[s].generation < u.lifecycle.generation
  {}

  // ----- which pushes get in -----

  /** A push gets in exactly when there is room for it, sequences are left, and the latch does not hold
      a normal frame back; it gets in behind everything queued and is logged under its sequence. */
  lemma PushGetsInIff(t: Transport)
    requires CompletionInv(t) && Enabled(t, PushWrite) && t.call.generation != 0
    ensures var u := Apply(t, PushWrite); var c := t.call;
      && (u.call.sequence != 0 <==>
            && |Queue(t, c.powerOff)| < 4 && t.mailbox.next < 0xFFFF_FFFF_FFFF_FFFF
            && (c.powerOff || t.mailbox.latch != c.generation))
      && (u.call.sequence != 0 ==>
            && u.call.sequence == t.mailbox.next
            && Queue(u, c.powerOff) == Queue(t, c.powerOff) + [QueuedCommand(c.frame, u.call.sequence, c.generation)]
            && u.pushed == t.pushed[u.call.sequence := PushRecord(c.frame, c.generation, c.powerOff)])
      && (u.call.sequence == 0 ==> Queue(u, c.powerOff) == Queue(t, c.powerOff) && u.pushed == t.pushed)
      && Queue(u, !c.powerOff) == Queue(t, !c.powerOff)
      && u.mailbox.latch == if c.powerOff then c.generation else t.mailbox.latch
  {}

  // ----- closing -----

  /** The power-off is queued for the draining session, or this one or a later one is to be written last. */
  ghost predicate ToBeWritten(t: Transport, sequence: nat) {
    && t.session.Some? && t.session.value.phase.Draining?
    && sequence in t.pushed && t.pushed[sequence].powerOff && t.pushed[sequence].generation == t.session.value.generation
    && (InQueue(t, sequence, true) || IsLast(t, sequence))
  }

  ghost predicate IsLast(t: Transport, sequence: nat)
    requires t.session.Some? && t.session.value.phase.Draining?
  {
    var last := t.session.value.phase.last;
    && last.Some? && sequence <= last.value.sequence && AllAbove(t, true, last.value.sequence)
    && last.value.sequence in t.pushed && t.pushed[last.value.sequence].powerOff
  }

  lemma DrainedIsLast(t: Transport, sequence: nat)
    requires CompletionInv(t) && NewestInv(t) && Enabled(t, DrainOne) && ToBeWritten(t, sequence)
    ensures ToBeWritten(Apply(t, DrainOne), sequence)
  {
    var u, taken := Apply(t, DrainOne), Offer(t).1.value;
    var p, n := PopNextShape(t.mailbox, t.session.value.generation);
    if taken.isPowerOff {
      TakingLeavesAbove(t, DrainOne);
      assert LoggedItem(t.mailbox.powerOff[p - 1], true, t.pushed);
      if InQueue(t, sequence, true) {
        PopFate(t, DrainOne, sequence, true);
      }
    } else if InQueue(t, sequence, true) {
      PopFate(t, DrainOne, sequence, true);
    }
  }

  /** What a finished power-off completes includes everything queued for its session. */
  lemma {:induction false} QueuedAreCompleted(queue: seq<QueuedCommand>, generation: nat, k: nat)
    requires k < |queue| && queue[k].generation == generation
    ensures queue[k].sequence in SequencesOf(queue, generation)
    decreases |queue|
  {
    var init := queue[..|queue| - 1];
    if k < |init| {
      QueuedAreCompleted(init, generation, k);
    }
  }

  lemma DoneCompletes(t: Transport, sequence: nat)
    requires CompletionInv(t) && Enabled(t, WriteDone) && ToBeWritten(t, sequence) && InQueue(t, sequence, true)
    ensures sequence in Apply(t, WriteDone).completed || ToBeWritten(Apply(t, WriteDone), sequence)
  {
    var queue, g := t.mailbox.powerOff, t.session.value.generation;
    var k :| 0 <= k < |queue| && queue[k].sequence == sequence;
    assert LoggedItem(queue[k], true, t.pushed);
    if t.session.value.tx.value.isPowerOff {
      QueuedAreCompleted(queue, g, k);
      assert sequence in CompletedBy(t);
    } else {
      assert Queue(Apply(t, WriteDone), true) == queue;
    }
  }

  lemma OtherStepsKeepQueue(t: Transport, step: Step)
    requires |t.mailbox.history| == HISTORY_SIZE && Enabled(t, step) && t.session.Some? && t.session.value.phase.Draining?
    requires !step.DrainOne? && !step.DrainDone? && !step.WriteDone? && !step.PushWrite?
    ensures Queue(Apply(t, step), true) == Queue(t, true)
  {}

  lemma DrainingStep(t: Transport, step: Step, sequence: nat)
    requires GenerationInv(t) && CompletionInv(t) && NewestInv(t) && Enabled(t, step) && ToBeWritten(t, sequence)
    requires step != DrainDone
    ensures sequence in Apply(t, step).completed || ToBeWritten(Apply(t, step), sequence)
  {
    var u := Apply(t, step);
    GrowsStep(t, step);
    if IsLast(t, sequence) {
      AboveStep(t, step, true, t.session.value.phase.last.value.sequence);
    }
    match step
    case DrainOne => DrainedIsLast(t, sequence);
    case WriteDone =>
      if InQueue(t, sequence, true) {
        DoneCompletes(t, sequence);
      }
    case PushWrite =>
      if InQueue(t, sequence, true) {
        PushFate(t, sequence, true);
      }
    case DrainDone =>
    case _ => OtherStepsKeepQueue(t, step);
  }

  ghost predicate Provided(t: Transport, sequence: nat) {
    sequence in t.completed || ToBeWritten(t, sequence)
  }

  lemma DrainingNext(states: seq<Transport>, steps: seq<Step>, k: nat, sequence: nat)
    requires Run(states, steps) && k < |steps| && Provided(states[k], sequence) && steps[k] != DrainDone
    ensures Provided(states[k + 1], sequence)
  {
    RunStep(states, steps, k);
    if sequence in states[k].completed {
      GrowsStep(states[k], steps[k]);
    } else {
      NewestRun(states, steps, k);
      DrainingStep(states[k], steps[k], sequence);
    }
  }

  lemma {:induction false} DrainingRun(states: seq<Transport>, steps: seq<Step>, i: nat, j: nat, sequence: nat)
    requires Run(states, steps) && i <= j < |states| && Provided(states[i], sequence)
    requires forall k | i <= k < j :: steps[k] != DrainDone
    ensures Provided(states[j], sequence)
    decreases j
  {
    if i < j {
      DrainingRun(states, steps, i, j - 1, sequence);
      DrainingNext(states, steps, j - 1, sequence);
    }
  }

  /** A power-off still queued when `close` begins to drain is completed by a write under way, or the
      last frame of the session is this power-off or a later one. */
  lemma CloseWritesPowerOff(states: seq<Transport>, steps: seq<Step>, i: nat, j: nat, sequence: nat)
    requires Run(states, steps) && i < j < |steps| && steps[i] == CloseDrain && steps[j] == DrainDone
    requires forall k | i < k < j :: steps[k] != DrainDone
    requires InQueue(states[i], sequence, true)
    requires sequence in states[i].pushed && states[i].pushed[sequence].generation == states[i].session.value.generation
    ensures sequence in states[j].completed ||
      var sent := states[j + 1].sent;
      && |sent| == |states[j].sent| + 1
      && var last := sent[|sent| - 1].item.sequence;
         sequence <= last && last in states[j].pushed && states[j].pushed[last].powerOff
  {
    QueuedIsPowerOff(states, steps, i, sequence);
    assert states[i + 1] == Apply(states[i], steps[i]);
    assert Queue(states[i + 1], true) == Queue(states[i], true);
    DrainingRun(states, steps, i + 1, j, sequence);
    if sequence !in states[j].completed {
      NothingLeft(states, steps, j, sequence);
    }
  }

  lemma QueuedIsPowerOff(states: seq<Transport>, steps: seq<Step>, i: nat, sequence: nat)
    requires Run(states, steps) && i < |states| && InQueue(states[i], sequence, true)
    ensures sequence in states[i].pushed && states[i].pushed[sequence].powerOff
  {
    RunKeepsInv(states, steps, i);
    var queue := Queue(states[i], true);
    var k :| 0 <= k < |queue| && queue[k].sequence == sequence;
    assert LoggedItem(queue[k], true, states[i].pushed);
  }

  lemma NothingLeft(states: seq<Transport>, steps: seq<Step>, j: nat, sequence: nat)
    requires Run(states, steps) && j < |steps| && steps[j] == DrainDone && ToBeWritten(states[j], sequence)
    ensures IsLast(states[j], sequence)
    ensures states[j + 1].sent
         == states[j].sent + [SentRecord(states[j].session.value.phase.last.value, states[j].session.value.generation)]
  {
    var t := states[j];
    RunStep(states, steps, j);
    PopTakesOldest(t.mailbox, t.session.value.generation);
    forall k | 0 <= k < |t.mailbox.powerOff| ensures t.mailbox.powerOff[k].sequence != sequence {
      assert LoggedItem(t.mailbox.powerOff[k], true, t.pushed);
    }
  }
}
